/** The patches git prints, and the proof that the parser reads them back. A patch here is any list of
    file sections in the format of POSIX.1-2017 "Diff -u or -U Output Format" with git headers. */
module PatchPrinter {
  import opened Prelude
  import opened Text
  import opened GitPaths
  import opened PatchParser

  datatype Line = Context(text: string) | Added(text: string) | Removed(text: string) | Note(text: string)

  /** One side of a hunk header; a brief one leaves out a count of 1. */
  datatype Side = Side(start: nat, count: nat, brief: bool)

  datatype Hunk = Hunk(before: Side, after: Side, heading: string, lines: seq<Line>)

  /** The old and the new name of a file; none is printed as the null device. */
  datatype FileDiff = FileDiff(oldName: Option<Label>, newName: Option<Label>, hunks: seq<Hunk>)

  /** A section without markers is a pure mode change or rename. */
  datatype Section = Section(names: string, headers: seq<string>, change: Option<FileDiff>)

  // ----- Printing -----

  function MarkerOf(l: Line): char {
    match l
    case Context(_) => ' '
    case Added(_) => '+'
    case Removed(_) => '-'
    case Note(_) => '\\'
  }

  function ShowLine(l: Line): string {
    [MarkerOf(l)] + l.text
  }

  function ShowSide(s: Side): string {
    if s.count == 1 && s.brief then Decimal(s.start) else Decimal(s.start) + "," + Decimal(s.count)
  }

  function ShowHeader(h: Hunk): string {
    "@@ -" + ShowSide(h.before) + " +" + ShowSide(h.after) + " @@" + h.heading
  }

  function ShowLines(lines: seq<Line>): (shown: seq<string>)
    ensures |shown| == |lines|
  {
    if |lines| == 0 then [] else ShowLines(lines[..|lines| - 1]) + [ShowLine(lines[|lines| - 1])]
  }

  function ShowHunk(h: Hunk): seq<string> {
    [ShowHeader(h)] + ShowLines(h.lines)
  }

  function ShowHunks(hunks: seq<Hunk>): seq<string> {
    if |hunks| == 0 then [] else ShowHunks(hunks[..|hunks| - 1]) + ShowHunk(hunks[|hunks| - 1])
  }

  /** Names that can be printed: at least one, each spelling its prefix and a path. */
  ghost predicate GoodNames(f: FileDiff) {
    && (f.oldName.Some? || f.newName.Some?)
    && (f.oldName.Some? ==> GoodLabel('a', f.oldName.value))
    && (f.newName.Some? ==> GoodLabel('b', f.newName.value))
  }

  function OldMarker(f: FileDiff): string
    requires GoodNames(f)
  {
    if f.oldName.Some? then ShowMarker('a', f.oldName.value) else "/dev/null"
  }

  function NewMarker(f: FileDiff): string
    requires GoodNames(f)
  {
    if f.newName.Some? then ShowMarker('b', f.newName.value) else "/dev/null"
  }

  function ShowFile(f: FileDiff): seq<string>
    requires GoodNames(f)
  {
    [OLD_MARKER + OldMarker(f), NEW_MARKER + NewMarker(f)] + ShowHunks(f.hunks)
  }

  function ShowSection(s: Section): (lines: seq<string>)
    requires s.change.Some? ==> GoodNames(s.change.value)
    ensures |lines| > 0
  {
    [DIFF_GIT + s.names] + s.headers + (if s.change.Some? then ShowFile(s.change.value) else [])
  }

  ghost predicate AllNamed(sections: seq<Section>) {
    forall s :: s in sections && s.change.Some? ==> GoodNames(s.change.value)
  }

  function ShowSections(sections: seq<Section>): seq<string>
    requires AllNamed(sections)
  {
    if |sections| == 0 then [] else ShowSections(sections[..|sections| - 1]) + ShowSection(sections[|sections| - 1])
  }

  /** Every line ends with a line feed. */
  function ShowPatch(sections: seq<Section>): string
    requires AllNamed(sections)
  {
    Join(ShowSections(sections) + [""], '\n')
  }

  // ----- Well-formed patches -----

  /** The new-side text of a hunk, line by line. */
  function NewTexts(lines: seq<Line>): seq<string> {
    if |lines| == 0 then []
    else
      var l := lines[|lines| - 1];
      NewTexts(lines[..|lines| - 1]) + (if l.Context? || l.Added? then [l.text] else [])
  }

  ghost predicate GoodHunk(h: Hunk) {
    && |NewTexts(h.lines)| == h.after.count
    && '\n' !in h.heading
    && (forall l :: l in h.lines ==> '\n' !in l.text)
  }

  predicate Covers(h: Hunk, n: nat) {
    h.after.start <= n < h.after.start + h.after.count
  }

  ghost predicate Disjoint(hunks: seq<Hunk>) {
    forall i, j, n :: 0 <= i < j < |hunks| && Covers(hunks[i], n) ==> !Covers(hunks[j], n)
  }

  /** The file goes by its new name, or by the old one if it is deleted. */
  function PathOf(f: FileDiff): string
    requires GoodNames(f)
  {
    if f.newName.Some? then LabelPath('b', f.newName.value) else LabelPath('a', f.oldName.value)
  }

  predicate FaithfulName(f: FileDiff)
    requires GoodNames(f)
  {
    if f.newName.Some? then Faithful('b', f.newName.value) else Faithful('a', f.oldName.value)
  }

  ghost predicate GoodFile(f: FileDiff) {
    && GoodNames(f)
    && '\n' !in OldMarker(f) && '\n' !in NewMarker(f)
    && (forall h :: h in f.hunks ==> GoodHunk(h))
    && Disjoint(f.hunks)
  }

  /** An extended header line, such as a mode or an index line. */
  predicate Inert(line: string) {
    '\n' !in line && !OpensSection(line) && !NamesOldFile(line) && !NamesNewFile(line) && HunkHeader(line).None?
  }

  ghost predicate GoodSection(s: Section) {
    && '\n' !in s.names
    && (forall header :: header in s.headers ==> Inert(header))
    && (s.change.Some? ==> GoodFile(s.change.value))
  }

  ghost predicate AllGood(sections: seq<Section>) {
    forall s :: s in sections ==> GoodSection(s)
  }

  // ----- What the parser is to find -----

  function RangeOf(side: Side): seq<Range> {
    if side.count > 0 then [Range(side.start, side.start + side.count - 1)] else []
  }

  function RangesOf(hunks: seq<Hunk>): seq<Range> {
    if |hunks| == 0 then [] else RangesOf(hunks[..|hunks| - 1]) + RangeOf(hunks[|hunks| - 1].after)
  }

  /** The `k`th new-side line of the hunk, without a trailing carriage return, is where it belongs. */
  predicate HasText(found: DiffFile, h: Hunk, k: nat)
    requires k < |NewTexts(h.lines)|
  {
    && h.after.start + k in found.newLines
    && found.newLines[h.after.start + k] == StripReturn(NewTexts(h.lines)[k])
  }

  /** `found` has the ranges of the hunks in order, and for every line number in one of them, and for no
      other, the text printed there. */
  ghost predicate HasHunks(found: DiffFile, hunks: seq<Hunk>) {
    && found.newRanges == RangesOf(hunks)
    && (forall n :: n in found.newLines <==> exists h :: h in hunks && Covers(h, n))
    && (forall h, k :: h in hunks && 0 <= k < |NewTexts(h.lines)| ==> HasText(found, h, k))
  }

  /** `found` is the file `f` describes: its path, its ranges and its lines. */
  ghost predicate Describes(f: FileDiff, found: DiffFile)
    requires GoodNames(f)
  {
    found.path == PathOf(f) && HasHunks(found, f.hunks)
  }

  function Changes(sections: seq<Section>): (changes: seq<FileDiff>)
    requires AllNamed(sections)
    ensures forall f :: f in changes ==> GoodNames(f)
  {
    if |sections| == 0 then []
    else
      var s := sections[|sections| - 1];
      Changes(sections[..|sections| - 1]) + (if s.change.Some? then [s.change.value] else [])
  }

  // ----- Hunk headers are read -----

  lemma NumberRead(n: nat, rest: string)
    requires |rest| > 0 ==> !IsDigit(rest[0])
    ensures Number(Some(Decimal(n) + rest)) == Some((n, rest))
  {
    DecimalReads(n);
    DigitsStop(Decimal(n), rest);
    assert (Decimal(n) + rest)[..|Decimal(n)|] == Decimal(n);
    assert (Decimal(n) + rest)[|Decimal(n)|..] == rest;
  }

  lemma PrefixRead(prefix: string, rest: string)
    ensures After(Some(prefix + rest), prefix) == Some(rest)
  {
    assert (prefix + rest)[|prefix|..] == rest;
  }

  lemma NoComma(rest: string)
    requires |rest| > 0 && rest[0] == ' '
    ensures Number(After(Some(rest), ",")).None?
  {
  }

  lemma SideRead(s: Side, rest: string)
    requires |rest| > 0 && rest[0] == ' '
    ensures StartAndCount(Some(ShowSide(s) + rest)) == Some((HunkStart(s.start, s.count), rest))
  {
    hide Number, Decimal, After;
    if s.count == 1 && s.brief {
      NumberRead(s.start, rest);
      NoComma(rest);
    } else {
      var counted := "," + (Decimal(s.count) + rest);
      assert Decimal(s.start) + "," + Decimal(s.count) + rest == Decimal(s.start) + counted;
      NumberRead(s.start, counted);
      PrefixRead(",", Decimal(s.count) + rest);
      NumberRead(s.count, rest);
    }
  }

  lemma HeaderRead(h: Hunk)
    ensures HunkHeader(ShowHeader(h)) == Some(HunkStart(h.after.start, h.after.count))
  {
    hide StartAndCount, ShowSide, After;
    var tail := " @@" + h.heading;
    var middle := " +" + (ShowSide(h.after) + tail);
    assert ShowHeader(h) == "@@ -" + (ShowSide(h.before) + middle);
    PrefixRead("@@ -", ShowSide(h.before) + middle);
    SideRead(h.before, middle);
    PrefixRead(" +", ShowSide(h.after) + tail);
    SideRead(h.after, tail);
    PrefixRead(" @@", h.heading);
  }

  // ----- One line, one hunk, one file -----

  lemma {:induction false} StepsConcat(s: State, a: seq<string>, b: seq<string>)
    requires Sound(s)
    ensures Steps(s, a + b) == Steps(Steps(s, a), b)
  {
    hide Step;
    if |b| == 0 {
      assert a + b == a;
    } else {
      StepsConcat(s, a, b[..|b| - 1]);
      assert (a + b)[..|a + b| - 1] == a + b[..|b| - 1];
    }
  }

  lemma StepsOne(s: State, line: string)
    requires Sound(s)
    ensures Steps(s, [line]) == Step(s, line)
  {
    hide Step;
    assert [line][..0] == [];
  }

  /** The first character tells the kinds of line apart. */
  lemma FirstCharacter(line: string)
    requires |line| > 0
    ensures line[0] != 'd' ==> !OpensSection(line)
    ensures line[0] != '-' ==> !NamesOldFile(line)
    ensures line[0] != '+' ==> !NamesNewFile(line)
    ensures line[0] != '@' ==> HunkHeader(line).None?
  {
    assert DIFF_GIT[0] == 'd' && OLD_MARKER[0] == '-' && NEW_MARKER[0] == '+' && "@@ -"[0] == '@';
    hide StartAndCount;
    if line[0] != '@' { assert After(Some(line), "@@ -").None?; NoSide(); }
  }

  lemma NoSide()
    ensures StartAndCount(None).None?
  {
  }

  function Fill(f: DiffFile, n: nat, texts: seq<string>): DiffFile {
    if |texts| == 0 then f
    else AddLine(Fill(f, n, texts[..|texts| - 1]), n + |texts| - 1, texts[|texts| - 1])
  }

  function Filled(s: State, n: nat, texts: seq<string>): (r: State)
    requires Sound(s) && s.open
    ensures Sound(r)
  {
    s.(files := SetLast(s.files, Fill(Last(s.files), n, texts)), newLine := Some(n + |texts|))
  }

  lemma LineStep(s: State, n: nat, texts: seq<string>, l: Line)
    requires Sound(s) && s.open && !s.scanning
    ensures Step(Filled(s, n, texts), ShowLine(l)) ==
              Filled(s, n, texts + if l.Context? || l.Added? then [l.text] else [])
  {
    var more := texts + if l.Context? || l.Added? then [l.text] else [];
    FirstCharacter(ShowLine(l));
    assert ShowLine(l)[1..] == l.text;
    assert texts + [] == texts;
    hide HunkHeader, OpensSection, AddLine;
    if l.Context? || l.Added? { assert more[..|more| - 1] == texts; }
  }

  lemma {:induction false} LinesStep(s: State, n: nat, lines: seq<Line>)
    requires Sound(s) && s.open && !s.scanning && s.newLine == Some(n)
    ensures Steps(s, ShowLines(lines)) == Filled(s, n, NewTexts(lines))
  {
    if |lines| > 0 {
      var init, last := lines[..|lines| - 1], lines[|lines| - 1];
      LinesStep(s, n, init);
      LineStep(s, n, NewTexts(init), last);
      hide Step, Filled;
      StepsConcat(s, ShowLines(init), [ShowLine(last)]);
      StepsOne(Filled(s, n, NewTexts(init)), ShowLine(last));
    }
  }

  function AddHunk(f: DiffFile, h: Hunk): DiffFile {
    Fill(AddRange(f, HunkStart(h.after.start, h.after.count)), h.after.start, NewTexts(h.lines))
  }

  function AddHunks(f: DiffFile, hunks: seq<Hunk>): DiffFile {
    if |hunks| == 0 then f else AddHunk(AddHunks(f, hunks[..|hunks| - 1]), hunks[|hunks| - 1])
  }

  /** The state after a file's hunks, as far as the next section can tell. */
  ghost predicate HunksRead(s: State, r: State, f: DiffFile)
    requires Sound(s) && s.open
  {
    r.open && r.files == SetLast(s.files, f)
  }

  lemma HeaderStep(s: State, h: Hunk)
    requires Sound(s) && s.open
    ensures var start := HunkStart(h.after.start, h.after.count);
            Step(s, ShowHeader(h)) == s.(scanning := false, newLine := Some(h.after.start),
                                         files := SetLast(s.files, AddRange(Last(s.files), start)))
  {
    HeaderRead(h);
    assert ShowHeader(h)[0] == '@';
    FirstCharacter(ShowHeader(h));
    hide HunkHeader, OpensSection, AddRange, ShowHeader;
  }

  lemma HunkStep(s: State, h: Hunk)
    requires Sound(s) && s.open
    ensures HunksRead(s, Steps(s, ShowHunk(h)), AddHunk(Last(s.files), h))
  {
    HeaderStep(s, h);
    hide Step, NewTexts, AddRange, ShowHeader, Fill;
    var begun := Step(s, ShowHeader(h));
    StepsOne(s, ShowHeader(h));
    StepsConcat(s, [ShowHeader(h)], ShowLines(h.lines));
    LinesStep(begun, h.after.start, h.lines);
  }

  lemma {:induction false} HunksStep(s: State, hunks: seq<Hunk>)
    requires Sound(s) && s.open
    ensures HunksRead(s, Steps(s, ShowHunks(hunks)), AddHunks(Last(s.files), hunks))
  {
    if |hunks| > 0 {
      hide Step, AddHunk, ShowHunk;
      var init, last := hunks[..|hunks| - 1], hunks[|hunks| - 1];
      HunksStep(s, init);
      HunkStep(Steps(s, ShowHunks(init)), last);
      StepsConcat(s, ShowHunks(init), ShowHunk(last));
    }
  }

  /** The path the parser makes of the marker lines. */
  function PathRead(f: FileDiff): string
    requires GoodNames(f)
  {
    var read := if f.newName.Some? then ReadMarker('b', f.newName.value) else ReadMarker('a', f.oldName.value);
    if read.Some? then read.value else ""
  }

  /** It is the printed path exactly when the name it is taken from is faithful. */
  lemma PathIsRead(f: FileDiff)
    requires GoodNames(f)
    ensures PathRead(f) == PathOf(f) <==> FaithfulName(f)
    ensures (if f.newName.Some? then ReadMarker('b', f.newName.value) else ReadMarker('a', f.oldName.value)) == Some(PathRead(f))
  {
    hide ReadMarker, LabelPath, Faithful, GoodLabel;
    if f.newName.Some? {
      MarkerIsFaithful('b', f.newName.value);
    } else {
      MarkerIsFaithful('a', f.oldName.value);
    }
  }

  function FileRead(f: FileDiff): DiffFile
    requires GoodNames(f)
  {
    AddHunks(DiffFile(PathRead(f), [], map[]), f.hunks)
  }

  /** A section has begun and nothing in it named a new file yet. */
  predicate Opened(s: State, files: seq<DiffFile>) {
    s.files == files && !s.open && s.scanning && s.newLine.None? && s.oldPath.None?
  }

  lemma {:induction false} HeadersStep(s: State, files: seq<DiffFile>, headers: seq<string>)
    requires Opened(s, files) && forall header :: header in headers ==> Inert(header)
    ensures Opened(Steps(s, headers), files)
  {
    if |headers| > 0 {
      assert Inert(headers[|headers| - 1]);
      HeadersStep(s, files, headers[..|headers| - 1]);
      hide HunkHeader, OpensSection, NamesOldFile, NamesNewFile;
    }
  }

  lemma MarkerLines(line: string, raw: string)
    ensures line == OLD_MARKER + raw ==> NamesOldFile(line) && line[4..] == raw && !OpensSection(line)
    ensures line == NEW_MARKER + raw ==> NamesNewFile(line) && line[4..] == raw && !OpensSection(line) && !NamesOldFile(line)
  {
    if line == OLD_MARKER + raw || line == NEW_MARKER + raw {
      assert line[0] != 'd';
      FirstCharacter(line);
    }
  }

  lemma MarkersStep(s: State, files: seq<DiffFile>, f: FileDiff)
    requires Opened(s, files) && GoodNames(f)
    ensures var r := Steps(s, [OLD_MARKER + OldMarker(f), NEW_MARKER + NewMarker(f)]);
            r.open && r.files == files + [DiffFile(PathRead(f), [], map[])]
  {
    var first, second := OLD_MARKER + OldMarker(f), NEW_MARKER + NewMarker(f);
    assert [first, second] == [first] + [second];
    MarkerLines(first, OldMarker(f));
    MarkerLines(second, NewMarker(f));
    StepsConcat(s, [first], [second]);
    StepsOne(s, first);
    StepsOne(Step(s, first), second);
    NameRead(f);
    hide Steps, OpensSection, NamesOldFile, NamesNewFile, ParseMarkerPath, HunkHeader, PathRead, OldMarker, NewMarker;
  }

  lemma NameRead(f: FileDiff)
    requires GoodNames(f)
    ensures var marked := ParseMarkerPath(NewMarker(f), "b/");
            (if marked.Some? then marked else ParseMarkerPath(OldMarker(f), "a/")) == Some(PathRead(f))
  {
    PathIsRead(f);
    assert "b/" == ['b', '/'] && "a/" == ['a', '/'];
    hide ShowMarker, GoodLabel, PathRead;
    assert ParseMarkerPath("/dev/null", "b/").None?;
    hide ParseMarkerPath;
  }

  lemma FileStep(s: State, files: seq<DiffFile>, f: FileDiff)
    requires Opened(s, files) && GoodNames(f)
    ensures Steps(s, ShowFile(f)).files == files + [FileRead(f)]
  {
    var markers := [OLD_MARKER + OldMarker(f), NEW_MARKER + NewMarker(f)];
    MarkersStep(s, files, f);
    hide Steps, AddHunks;
    StepsConcat(s, markers, ShowHunks(f.hunks));
    HunksStep(Steps(s, markers), f.hunks);
  }

  function ChangeRead(s: Section): seq<DiffFile>
    requires s.change.Some? ==> GoodNames(s.change.value)
  {
    if s.change.Some? then [FileRead(s.change.value)] else []
  }

  lemma OpenStep(s: State, names: string)
    requires Sound(s)
    ensures Opened(Step(s, DIFF_GIT + names), s.files)
  {
    hide HunkHeader;
  }

  lemma SectionStep(s: State, section: Section)
    requires Sound(s) && (forall header :: header in section.headers ==> Inert(header))
    requires section.change.Some? ==> GoodNames(section.change.value)
    ensures Steps(s, ShowSection(section)).files == s.files + ChangeRead(section)
  {
    var line, headers := DIFF_GIT + section.names, section.headers;
    var change := if section.change.Some? then ShowFile(section.change.value) else [];
    hide Step, Steps, Inert, ShowFile, FileRead;
    StepsOne(s, line);
    OpenStep(s, section.names);
    StepsConcat(s, [line], headers);
    HeadersStep(Step(s, line), s.files, headers);
    var begun := Steps(s, [line] + headers);
    StepsConcat(s, [line] + headers, change);
    if section.change.Some? {
      FileStep(begun, s.files, section.change.value);
    } else {
      NoSteps(begun);
    }
  }

  lemma NoSteps(s: State)
    requires Sound(s)
    ensures Steps(s, []) == s
  {
  }

  function FilesRead(changes: seq<FileDiff>): (files: seq<DiffFile>)
    requires forall f :: f in changes ==> GoodNames(f)
    ensures |files| == |changes| && forall i :: 0 <= i < |changes| ==> files[i] == FileRead(changes[i])
  {
    seq(|changes|, i requires 0 <= i < |changes| => FileRead(changes[i]))
  }

  lemma {:induction false} SectionsStep(sections: seq<Section>)
    requires AllGood(sections)
    ensures Steps(START, ShowSections(sections)).files == FilesRead(Changes(sections))
  {
    if |sections| > 0 {
      var init, last := sections[..|sections| - 1], sections[|sections| - 1];
      SectionsStep(init);
      assert GoodSection(last);
      hide Step, Steps, ShowSection, FileRead, GoodSection;
      SectionStep(Steps(START, ShowSections(init)), last);
      StepsConcat(START, ShowSections(init), ShowSection(last));
      assert FilesRead(Changes(sections)) == FilesRead(Changes(init)) + ChangeRead(last);
    }
  }

  // ----- The printed text splits into the printed lines -----

  lemma FreeConcat(a: seq<string>, b: seq<string>, separator: char)
    requires FreeOf(a, separator) && FreeOf(b, separator)
    ensures FreeOf(a + b, separator)
  {
  }

  lemma {:induction false} DecimalIsFree(n: nat)
    ensures '\n' !in Decimal(n)
  {
    DecimalReads(n);
  }

  lemma SideIsFree(s: Side)
    ensures '\n' !in ShowSide(s)
  {
    DecimalIsFree(s.start);
    DecimalIsFree(s.count);
    hide Decimal;
  }

  lemma HeaderIsFree(h: Hunk)
    requires '\n' !in h.heading
    ensures '\n' !in ShowHeader(h)
  {
    SideIsFree(h.before);
    SideIsFree(h.after);
    hide ShowSide;
  }

  lemma {:induction false} LinesAreFree(lines: seq<Line>)
    requires forall l :: l in lines ==> '\n' !in l.text
    ensures FreeOf(ShowLines(lines), '\n')
  {
    if |lines| > 0 {
      LinesAreFree(lines[..|lines| - 1]);
      var l := lines[|lines| - 1];
      assert '\n' !in l.text;
      assert '\n' !in ShowLine(l);
    }
  }

  lemma {:induction false} HunksAreFree(hunks: seq<Hunk>)
    requires forall h :: h in hunks ==> GoodHunk(h)
    ensures FreeOf(ShowHunks(hunks), '\n')
  {
    if |hunks| > 0 {
      var h := hunks[|hunks| - 1];
      HunksAreFree(hunks[..|hunks| - 1]);
      assert GoodHunk(h);
      hide ShowHeader, GoodHunk, NewTexts;
      HunkIsFree(h);
      FreeConcat(ShowHunks(hunks[..|hunks| - 1]), ShowHunk(h), '\n');
    }
  }

  lemma HunkIsFree(h: Hunk)
    requires GoodHunk(h)
    ensures FreeOf(ShowHunk(h), '\n')
  {
    HeaderIsFree(h);
    LinesAreFree(h.lines);
    hide ShowHeader;
    FreeConcat([ShowHeader(h)], ShowLines(h.lines), '\n');
  }

  lemma FileIsFree(f: FileDiff)
    requires GoodFile(f)
    ensures FreeOf(ShowFile(f), '\n')
  {
    HunksAreFree(f.hunks);
    hide ShowHunks;
    assert FreeOf([OLD_MARKER + OldMarker(f), NEW_MARKER + NewMarker(f)], '\n');
    FreeConcat([OLD_MARKER + OldMarker(f), NEW_MARKER + NewMarker(f)], ShowHunks(f.hunks), '\n');
  }

  lemma SectionIsFree(s: Section)
    requires GoodSection(s)
    ensures FreeOf(ShowSection(s), '\n')
  {
    if s.change.Some? { FileIsFree(s.change.value); }
    hide ShowFile, GoodFile, HunkHeader;
    assert FreeOf([DIFF_GIT + s.names], '\n');
    assert FreeOf(s.headers, '\n') by {
      forall i | 0 <= i < |s.headers|
        ensures '\n' !in s.headers[i]
      {
        assert Inert(s.headers[i]);
      }
    }
  }

  lemma {:induction false} SectionsAreFree(sections: seq<Section>)
    requires AllGood(sections)
    ensures FreeOf(ShowSections(sections), '\n')
  {
    if |sections| > 0 {
      var s := sections[|sections| - 1];
      SectionsAreFree(sections[..|sections| - 1]);
      assert GoodSection(s);
      hide ShowSection, GoodSection;
      SectionIsFree(s);
      FreeConcat(ShowSections(sections[..|sections| - 1]), ShowSection(s), '\n');
    }
  }

  lemma EmptyLineAddsNoFile(s: State)
    requires Sound(s)
    ensures Step(s, "").files == s.files
  {
    assert |DIFF_GIT| > 0 && |OLD_MARKER| > 0 && |NEW_MARKER| > 0 && |"@@ -"| > 0;
    assert After(Some(""), "@@ -").None?;
    NoSide();
    hide StartAndCount;
  }

  lemma ParsePrinted(sections: seq<Section>)
    requires AllGood(sections)
    ensures ParseDiff(ShowPatch(sections)) == FilesRead(Changes(sections))
  {
    var lines := ShowSections(sections);
    SectionsAreFree(sections);
    SectionsStep(sections);
    hide Step, Steps, ShowSections, FilesRead, GoodSection;
    FreeConcat(lines, [""], '\n');
    SplitJoin(lines + [""], '\n');
    StepsConcat(START, lines, [""]);
    StepsOne(Steps(START, lines), "");
    EmptyLineAddsNoFile(Steps(START, lines));
  }

  // ----- What was read is what was printed -----

  /** The effect of one batch of lines on the line map. */
  lemma {:induction false} FillIs(f: DiffFile, start: nat, texts: seq<string>)
    ensures var r := Fill(f, start, texts);
            && r.path == f.path && r.newRanges == f.newRanges
            && (forall n :: n in r.newLines <==> n in f.newLines || start <= n < start + |texts|)
            && (forall n :: n in f.newLines && !(start <= n < start + |texts|) ==> r.newLines[n] == f.newLines[n])
            && (forall k :: 0 <= k < |texts| ==> start + k in r.newLines && r.newLines[start + k] == StripReturn(texts[k]))
  {
    hide StripReturn;
    if |texts| > 0 { FillIs(f, start, texts[..|texts| - 1]); }
  }

  /** The effect of one hunk on the file. */
  lemma HunkIs(f: DiffFile, h: Hunk)
    requires GoodHunk(h)
    ensures var r := AddHunk(f, h);
            && r.path == f.path
            && r.newRanges == f.newRanges + RangesOf([h])
            && (forall n :: n in r.newLines <==> n in f.newLines || Covers(h, n))
            && (forall n :: n in f.newLines && !Covers(h, n) ==> r.newLines[n] == f.newLines[n])
            && HasTexts(r, h)
  {
    assert [h][..0] == [];
    FillIs(AddRange(f, HunkStart(h.after.start, h.after.count)), h.after.start, NewTexts(h.lines));
    hide NewTexts, StripReturn, Fill;
  }

  ghost predicate HasTexts(found: DiffFile, h: Hunk) {
    forall k :: 0 <= k < |NewTexts(h.lines)| ==> HasText(found, h, k)
  }


  /** What holds of the file after some of its hunks. */
  ghost predicate Gathered(found: DiffFile, path: string, hunks: seq<Hunk>) {
    && found.path == path
    && found.newRanges == RangesOf(hunks)
    && (forall n :: n in found.newLines <==> exists h :: h in hunks && Covers(h, n))
    && (forall h :: h in hunks ==> HasTexts(found, h))
  }

  lemma TextsStay(f: DiffFile, r: DiffFile, h: Hunk, last: Hunk)
    requires GoodHunk(h) && HasTexts(f, h)
    requires forall n :: Covers(h, n) ==> !Covers(last, n)
    requires forall n :: n in f.newLines && !Covers(last, n) ==> n in r.newLines && r.newLines[n] == f.newLines[n]
    ensures HasTexts(r, h)
  {
    forall k | 0 <= k < |NewTexts(h.lines)|
      ensures HasText(r, h, k)
    {
      assert HasText(f, h, k);
      assert Covers(h, h.after.start + k);
    }
  }

  lemma DisjointFromLast(hunks: seq<Hunk>, h: Hunk, n: nat)
    requires |hunks| > 0 && Disjoint(hunks) && h in hunks[..|hunks| - 1] && Covers(h, n)
    ensures !Covers(hunks[|hunks| - 1], n)
  {
  }

  lemma RangesOfLast(hunks: seq<Hunk>)
    requires |hunks| > 0
    ensures RangesOf(hunks) == RangesOf(hunks[..|hunks| - 1]) + RangesOf([hunks[|hunks| - 1]])
  {
    hide RangeOf;
    var last := hunks[|hunks| - 1];
    assert [last][..0] == [] && RangesOf([]) == [];
    assert RangesOf([last]) == [] + RangeOf(last.after) && [] + RangeOf(last.after) == RangeOf(last.after);
  }

  lemma {:induction false} HunksAre(path: string, hunks: seq<Hunk>)
    requires (forall h :: h in hunks ==> GoodHunk(h)) && Disjoint(hunks)
    ensures Gathered(AddHunks(DiffFile(path, [], map[]), hunks), path, hunks)
  {
    if |hunks| > 0 {
      var init, last := hunks[..|hunks| - 1], hunks[|hunks| - 1];
      HunksAre(path, init);
      NextHunkIs(path, hunks, AddHunks(DiffFile(path, [], map[]), init));
    }
  }

  lemma NextHunkIs(path: string, hunks: seq<Hunk>, f: DiffFile)
    requires |hunks| > 0 && (forall h :: h in hunks ==> GoodHunk(h)) && Disjoint(hunks)
    requires Gathered(f, path, hunks[..|hunks| - 1])
    ensures Gathered(AddHunk(f, hunks[|hunks| - 1]), path, hunks)
  {
    var init, last := hunks[..|hunks| - 1], hunks[|hunks| - 1];
    var r := AddHunk(f, last);
    HunkIs(f, last);
    RangesOfLast(hunks);
    assert hunks == init + [last];
    hide HasTexts, AddHunk, RangesOf, GoodHunk, Disjoint, Covers;
    forall h | h in hunks
      ensures HasTexts(r, h)
    {
      if h in init {
        forall n | Covers(h, n)
          ensures !Covers(last, n)
        {
          DisjointFromLast(hunks, h, n);
        }
        TextsStay(f, r, h, last);
      }
    }
    forall n
      ensures n in r.newLines <==> exists h :: h in hunks && Covers(h, n)
    {
      assert (exists h :: h in hunks && Covers(h, n)) <==> (exists h :: h in init && Covers(h, n)) || Covers(last, n);
    }
  }

  /** `found` has all of `f` but for its path, which it has exactly when the name is printed faithfully. */
  ghost predicate ReadBack(f: FileDiff, found: DiffFile)
    requires GoodNames(f)
  {
    HasHunks(found, f.hunks) && (Describes(f, found) <==> FaithfulName(f))
  }

  lemma FileIsReadBack(f: FileDiff)
    requires GoodFile(f)
    ensures ReadBack(f, FileRead(f))
  {
    HunksAre(PathRead(f), f.hunks);
    PathIsRead(f);
    hide AddHunks, NewTexts, RangesOf, PathRead, PathOf, FaithfulName;
  }

  lemma {:induction false} ChangesAreGood(sections: seq<Section>)
    requires AllGood(sections)
    ensures forall f :: f in Changes(sections) ==> GoodFile(f)
  {
    if |sections| > 0 {
      assert GoodSection(sections[|sections| - 1]);
      ChangesAreGood(sections[..|sections| - 1]);
    }
  }

  /** Parsing a printed patch gives back exactly the changed files, in order: each with the new-side
      ranges of its hunks, and under every line number of those ranges, and no other, the text printed
      there, also where added text looks like a marker line. A file has its path exactly when the name it
      goes by is printed faithfully. */
  lemma PatchRoundTrip(sections: seq<Section>)
    requires AllGood(sections)
    ensures var files, changes := ParseDiff(ShowPatch(sections)), Changes(sections);
            |files| == |changes| && forall i :: 0 <= i < |files| ==> ReadBack(changes[i], files[i])
  {
    ParsePrinted(sections);
    ChangesAreGood(sections);
    var changes := Changes(sections);
    hide ReadBack, Changes, ShowPatch, ParseDiff, GoodFile, FileRead, AllGood;
    forall i | 0 <= i < |changes|
      ensures ReadBack(changes[i], FilesRead(changes)[i])
    {
      assert GoodFile(changes[i]);
      FileIsReadBack(changes[i]);
    }
  }
}
