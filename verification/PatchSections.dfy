/** The parser works section by section: whatever comes before a `diff --git ` line, what follows is read
    as on its own. */
module PatchSections {
  import opened Prelude
  import opened Text
  import opened GitPaths
  import opened PatchParser
  import opened PatchPrinter

  // ----- The parser works section by section -----

  /** The same state with more files in front. */
  function Shifted(before: seq<DiffFile>, s: State): (r: State)
    requires Sound(s)
    ensures Sound(r)
  {
    s.(files := before + s.files)
  }

  lemma SetLastShifted(before: seq<DiffFile>, files: seq<DiffFile>, f: DiffFile)
    requires |files| > 0
    ensures before + SetLast(files, f) == SetLast(before + files, f) && Last(before + files) == Last(files)
  {
  }

  lemma StepShifted(before: seq<DiffFile>, s: State, line: string)
    requires Sound(s)
    ensures Step(Shifted(before, s), line) == Shifted(before, Step(s, line))
  {
    if s.open {
      forall f
        ensures before + SetLast(s.files, f) == SetLast(before + s.files, f) && Last(before + s.files) == Last(s.files)
      {
        SetLastShifted(before, s.files, f);
      }
    }
    hide SetLast, Last, HunkHeader, OpensSection, NamesOldFile, NamesNewFile, ParseMarkerPath, AddRange, AddLine;
    assert forall f :: before + (s.files + [f]) == before + s.files + [f];
  }

  lemma {:induction false} StepsShifted(before: seq<DiffFile>, s: State, lines: seq<string>)
    requires Sound(s)
    ensures Steps(Shifted(before, s), lines) == Shifted(before, Steps(s, lines))
  {
    hide Step, Shifted;
    if |lines| > 0 {
      StepsShifted(before, s, lines[..|lines| - 1]);
      StepShifted(before, Steps(s, lines[..|lines| - 1]), lines[|lines| - 1]);
    }
  }

  lemma OpeningResets(s: State, line: string)
    requires Sound(s) && OpensSection(line)
    ensures Step(s, line) == Shifted(s.files, Step(START, line))
  {
    hide OpensSection;
    assert s.files + [] == s.files;
  }

  lemma FirstStep(s: State, lines: seq<string>)
    requires Sound(s) && |lines| > 0
    ensures Steps(s, lines) == Steps(Step(s, lines[0]), lines[1..])
  {
    hide Step, Steps;
    assert lines == [lines[0]] + lines[1..];
    StepsConcat(s, [lines[0]], lines[1..]);
    StepsOne(s, lines[0]);
  }

  /** Whatever was read before, a section is read as on its own. */
  lemma SectionsAreIndependent(a: seq<string>, b: seq<string>)
    requires |b| > 0 && OpensSection(b[0])
    ensures ParseLines(a + b) == ParseLines(a) + ParseLines(b)
  {
    var s := Steps(START, a);
    hide Step, Steps, OpensSection;
    StepsConcat(START, a, b);
    FirstStep(s, b);
    FirstStep(START, b);
    OpeningResets(s, b[0]);
    StepsShifted(s.files, Step(START, b[0]), b[1..]);
  }

  predicate EndsLine(s: string) {
    |s| > 0 && s[|s| - 1] == '\n'
  }

  lemma {:induction false} FirstPiece(prefix: string, s: string, separator: char)
    requires separator !in prefix && prefix <= s
    ensures prefix <= Split(s, separator)[0]
  {
    if |prefix| > 0 {
      assert prefix[1..] <= s[1..];
      FirstPiece(prefix[1..], s[1..], separator);
    }
  }

  lemma OpensText(b: string)
    requires DIFF_GIT <= b
    ensures OpensSection(Split(b, '\n')[0])
  {
    FirstPiece(DIFF_GIT, b, '\n');
  }

  /** A line feed at the end of a text adds no file. */
  lemma FinalLineFeed(a: string)
    requires EndsLine(a)
    ensures ParseDiff(a) == ParseLines(Split(a[..|a| - 1], '\n'))
  {
    var lines := Split(a[..|a| - 1], '\n');
    assert a == a[..|a| - 1] + ['\n'] + "";
    SplitCut(a[..|a| - 1], "", '\n');
    hide Step, Steps, Split;
    assert Split("", '\n') == [""];
    StepsConcat(START, lines, [""]);
    StepsOne(Steps(START, lines), "");
    EmptyLineAddsNoFile(Steps(START, lines));
  }

  lemma EmptyPatch()
    ensures ParseDiff("") == []
  {
    assert Split("", '\n') == [""];
    hide Step;
    assert [""][..0] == [];
    EmptyLineAddsNoFile(START);
  }

  /** Parsing distributes over section boundaries. */
  lemma ParseDistributes(a: string, b: string)
    requires (a == "" || EndsLine(a)) && DIFF_GIT <= b
    ensures ParseDiff(a + b) == ParseDiff(a) + ParseDiff(b)
  {
    OpensText(b);
    if a == "" {
      EmptyPatch();
      assert "" + b == b;
    } else {
      var c := a[..|a| - 1];
      FinalLineFeed(a);
      assert a + b == c + ['\n'] + b;
      SplitCut(c, b, '\n');
      hide Split, ParseLines;
      SectionsAreIndependent(Split(c, '\n'), Split(b, '\n'));
    }
  }
}
