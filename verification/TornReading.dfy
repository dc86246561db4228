/** How a text is read that is torn in two: the last line of the first part runs on into the opening line of
    the second. */
module TornReading {
  import opened Prelude
  import opened Text
  import opened GitPaths
  import opened PatchParser
  import opened PatchPrinter
  import opened PatchSections
  import opened SectionFilter

  // ----- Lines of a torn text -----

  /** No line but the first opens a section. */
  ghost predicate OneSection(t: string) {
    forall i :: 1 <= i < |Split(t, '\n')| ==> !OpensSection(Split(t, '\n')[i])
  }

  lemma {:induction false} SplitGlued(h: string, t: string)
    ensures var a, b := Split(h, '\n'), Split(t, '\n');
            Split(h + t, '\n') == a[..|a| - 1] + [a[|a| - 1] + b[0]] + b[1..]
  {
    var b := Split(t, '\n');
    if |h| == 0 {
      assert h + t == t && Split(h, '\n') == [""];
      assert [""][..0] == [] && "" + b[0] == b[0] && [] + [b[0]] + b[1..] == b;
    } else {
      var rest := Split(h[1..], '\n');
      SplitGlued(h[1..], t);
      assert (h + t)[1..] == h[1..] + t && (h + t)[0] == h[0];
      GluedBehind(h[0], rest, b);
    }
  }

  lemma GluedBehind(c: char, rest: seq<string>, b: seq<string>)
    requires |rest| > 0 && |b| > 0
    ensures var a := Prefixed(c, rest, '\n');
            |a| > 0
            && Prefixed(c, rest[..|rest| - 1] + [rest[|rest| - 1] + b[0]] + b[1..], '\n')
               == a[..|a| - 1] + [a[|a| - 1] + b[0]] + b[1..]
  {
    if |rest| == 1 {
      assert rest[..0] == [] && rest[1..] == [];
      Regroup([c], rest[0], b[0]);
    }
  }

  lemma {:induction false} PieceIsPrefix(s: string)
    ensures Split(s, '\n')[0] <= s
  {
    if |s| > 0 && s[0] != '\n' { PieceIsPrefix(s[1..]); }
  }

  lemma UncutIsOneSection(t: string)
    requires forall r :: 0 < r < |t| ==> !IsCut(t, r)
    ensures OneSection(t)
  {
    forall i | 1 <= i < |Split(t, '\n')|
      ensures !OpensSection(Split(t, '\n')[i])
    {
      if OpensSection(Split(t, '\n')[i]) {
        var r := CutAtLine(t, i);
        assert false;
      }
    }
  }

  /** The line is found behind a line feed. */
  lemma {:induction false} CutAtLine(t: string, i: nat) returns (r: nat)
    requires 1 <= i < |Split(t, '\n')| && OpensSection(Split(t, '\n')[i])
    ensures 0 < r < |t| && IsCut(t, r)
  {
    var rest := t[1..];
    if t[0] == '\n' && i == 1 {
      PieceIsPrefix(rest);
      r := 1;
    } else {
      var k := CutAtLine(rest, if t[0] == '\n' then i - 1 else i);
      r := k + 1;
      assert t[r..] == rest[k..] && t[r - 1] == rest[k - 1];
    }
  }

  // ----- Which files are opened -----

  function Paths(files: seq<DiffFile>): (r: seq<string>)
    ensures |r| == |files| && forall i :: 0 <= i < |r| ==> r[i] == files[i].path
  {
    seq(|files|, i requires 0 <= i < |files| => files[i].path)
  }

  /** The path a line opens a file for. */
  function NewlyOpened(s: State, line: string): seq<string> {
    if !OpensSection(line) && s.scanning && !NamesOldFile(line) && NamesNewFile(line) && NewFilePath(s, line[4..]).Some?
    then [NewFilePath(s, line[4..]).value] else []
  }

  lemma StepOpens(s: State, line: string)
    requires Sound(s)
    ensures Paths(Step(s, line).files) == Paths(s.files) + NewlyOpened(s, line)
  {
    hide HunkHeader, OpensSection, ParseMarkerPath;
    assert Paths(s.files) + [] == Paths(s.files);
  }

  /** One line read in two states that agree on the marker lines, the second perhaps without the old name. */
  lemma StepAgrees(u: State, v: State, line: string)
    requires Sound(u) && Sound(v) && !OpensSection(line) && u.scanning == v.scanning
    requires u.oldPath == v.oldPath || v.oldPath.None?
    ensures Step(u, line).scanning == Step(v, line).scanning
    ensures Step(u, line).oldPath == Step(v, line).oldPath || Step(v, line).oldPath.None?
    ensures NewlyOpened(u, line) == NewlyOpened(v, line) || (NewlyOpened(v, line) == [] && |NewlyOpened(u, line)| == 1)
  {
    hide HunkHeader, OpensSection, ParseMarkerPath;
  }

  /** Reading on in two such states opens the same files, or the first state opens more. */
  lemma {:induction false} StepsAgree(u: State, v: State, lines: seq<string>) returns (more: nat)
    requires Sound(u) && Sound(v) && forall i :: 0 <= i < |lines| ==> !OpensSection(lines[i])
    requires u.scanning == v.scanning && (u.oldPath == v.oldPath || v.oldPath.None?)
    ensures var a, b := Steps(u, lines), Steps(v, lines);
            && a.scanning == b.scanning && (a.oldPath == b.oldPath || b.oldPath.None?)
            && |u.files| <= |a.files| && |v.files| <= |b.files|
            && Paths(a.files)[..|u.files|] == Paths(u.files) && Paths(b.files)[..|v.files|] == Paths(v.files)
            && |a.files| - |u.files| == |b.files| - |v.files| + more
            && (more == 0 ==> Paths(a.files)[|u.files|..] == Paths(b.files)[|v.files|..])
  {
    if |lines| == 0 {
      more := 0;
    } else {
      var init, last := lines[..|lines| - 1], lines[|lines| - 1];
      var earlier := StepsAgree(u, v, init);
      var a, b := Steps(u, init), Steps(v, init);
      StepAgrees(a, b, last);
      StepOpens(a, last);
      StepOpens(b, last);
      more := if NewlyOpened(a, last) == NewlyOpened(b, last) then earlier else earlier + 1;
      var x, y := NewlyOpened(a, last), NewlyOpened(b, last);
      hide Step, NewlyOpened, OpensSection;
      Grows(Paths(a.files), x, |u.files|);
      Grows(Paths(b.files), y, |v.files|);
    }
  }

  lemma Grows(paths: seq<string>, more: seq<string>, k: nat)
    requires k <= |paths|
    ensures (paths + more)[..k] == paths[..k] && (paths + more)[k..] == paths[k..] + more
  {
  }

  /** Behind a hunk header no line opens a file. */
  lemma {:induction false} NoneOpened(s: State, lines: seq<string>)
    requires Sound(s) && !s.scanning && forall i :: 0 <= i < |lines| ==> !OpensSection(lines[i])
    ensures Paths(Steps(s, lines).files) == Paths(s.files) && !Steps(s, lines).scanning
  {
    if |lines| > 0 {
      var init := lines[..|lines| - 1];
      NoneOpened(s, init);
      StepOpens(Steps(s, init), lines[|lines| - 1]);
      hide HunkHeader, OpensSection, ParseMarkerPath;
    }
  }

  lemma NotTheNull(raw: string, opening: string)
    requires DIFF_GIT <= opening
    ensures raw + opening != "/dev/null"
  {
    assert (raw + opening)[|raw| + 4] == opening[4] == DIFF_GIT[4] == ' ';
    assert ' ' !in "/dev/null";
  }

  /** A line that opens a file opens one also when an opening line is glued to its end. */
  lemma GluedOpens(s: State, line: string, opening: string)
    requires Sound(s) && NewlyOpened(s, line) != [] && DIFF_GIT <= opening
    ensures NewlyOpened(s, line + opening) != []
  {
    var glued, raw := line + opening, line[4..] + opening;
    assert glued[..4] == line[..4] && glued[4..] == raw && glued[0] == line[0] == NEW_MARKER[0];
    assert glued[0] == '+';
    FirstCharacter(glued);
    assert NEW_MARKER <= glued;
    NotTheNull(line[4..], opening);
    hide Unquote, OpensSection, NamesOldFile;
  }

  // ----- A text whose parts go by two names -----

  lemma {:induction false} OnePathOf(files: seq<DiffFile>, p: string, q: string)
    requires p != q && forall f :: f in files ==> f.path == p || f.path == q
    ensures |FilesOutside(files, {q})| + |FilesOutside(files, {p})| == |files|
  {
    if |files| > 0 {
      assert files[0] in files;
      OnePathOf(files[1..], p, q);
    }
  }

  lemma {:induction false} InOrder(files: seq<DiffFile>, p: string, q: string, k: nat)
    requires p != q && k <= |files|
    requires forall i :: 0 <= i < |files| ==> files[i].path == if i < k then p else q
    ensures FilesOutside(files, {q}) == files[..k] && FilesOutside(files, {p}) == files[k..]
  {
    NoneAt(files[..k], p, {q});
    NoneAt(files[..k], p, {p});
    NoneAt(files[k..], q, {q});
    NoneAt(files[k..], q, {p});
    OutsideConcat(files[..k], files[k..], {q});
    OutsideConcat(files[..k], files[k..], {p});
    assert files[..k] + files[k..] == files;
    assert files[..k] + [] == files[..k] && [] + files[k..] == files[k..];
  }

  /** The lines of a text and of one glued behind it. */
  lemma GluedLines(h: string, t: string)
    ensures var a, b := Split(h, '\n'), Split(t, '\n');
            var s := Steps(START, a[..|a| - 1]);
            && ParseDiff(h) == Step(s, a[|a| - 1]).files
            && ParseDiff(t) == Steps(Step(START, b[0]), b[1..]).files
            && ParseDiff(h + t) == Steps(Step(s, a[|a| - 1] + b[0]), b[1..]).files
  {
    var a, b := Split(h, '\n'), Split(t, '\n');
    SplitGlued(h, t);
    var glued := a[|a| - 1] + b[0];
    hide Step, Split;
    StepsConcat(START, a[..|a| - 1] + [glued], b[1..]);
    var front := a[..|a| - 1] + [glued];
    assert front[..|front| - 1] == a[..|a| - 1];
    FirstStep(START, b);
  }

  /** If first and second part go by two names, and leaving out one name leaves the other part, then the whole
      is read as the first part and then the second. */
  lemma ReadInOrder(h: string, t: string, p: string, q: string)
    requires DIFF_GIT <= t && OneSection(t) && p != q
    requires forall f :: f in ParseDiff(h + t) ==> f.path == p || f.path == q
    requires ParseDiff(h) == FilesOutside(ParseDiff(h + t), {q}) && ParseDiff(t) == FilesOutside(ParseDiff(h + t), {p})
    ensures ParseDiff(h + t) == ParseDiff(h) + ParseDiff(t)
  {
    var a, b := Split(h, '\n'), Split(t, '\n');
    var s, x := Steps(START, a[..|a| - 1]), a[|a| - 1];
    var files := ParseDiff(h + t);
    GluedLines(h, t);
    OpensText(t);
    OnePathOf(files, p, q);
    StepOpens(s, x);
    OutsideHasNone(files, {q});
    OutsideHasNone(files, {p});
    StepOpens(s, x + b[0]);
    var k := OrderedAt(s, x, b, p, q);
    InOrder(files, p, q, k);
    assert files[..k] + files[k..] == files;
  }

  lemma AllAt(files: seq<DiffFile>, p: string)
    requires forall f :: f in files ==> f.path == p
    ensures forall path :: path in Paths(files) ==> path == p
  {
  }

  /** Paths `p`, perhaps one more that is `p` or `q`, and paths `q`. */
  lemma InTwoRuns(files: seq<DiffFile>, front: seq<string>, o: seq<string>, back: seq<string>, p: string, q: string)
    returns (k: nat)
    requires Paths(files) == front + o + back && |o| <= 1
    requires (forall path :: path in front ==> path == p) && (forall path :: path in back ==> path == q)
    requires forall f :: f in files ==> f.path == p || f.path == q
    ensures k <= |files| && forall i :: 0 <= i < |files| ==> files[i].path == if i < k then p else q
  {
    k := |front| + if o == [p] then 1 else 0;
    forall i | 0 <= i < |files|
      ensures files[i].path == if i < k then p else q
    {
      var paths := front + o + back;
      assert paths[i] == files[i].path && files[i] in files;
      if i < |front| {
        assert paths[i] == front[i] && front[i] in front;
      } else if i < |front| + |o| {
        assert paths[i] == o[0];
      } else {
        assert paths[i] == back[i - |front| - |o|] && paths[i] in back;
      }
    }
  }

  /** Paths opened by the first part, perhaps by its last line as it runs on, and by the second part. */
  lemma PathsOfWhole(s: State, x: string, b: seq<string>) returns (o: seq<string>, back: seq<string>)
    requires Sound(s) && |b| > 0 && DIFF_GIT <= b[0] && forall i :: 1 <= i < |b| ==> !OpensSection(b[i])
    requires |Step(s, x).files| + |Steps(Step(START, b[0]), b[1..]).files| == |Steps(Step(s, x + b[0]), b[1..]).files|
    ensures Paths(Steps(Step(s, x + b[0]), b[1..]).files) == Paths(s.files) + o + back && |o| <= 1
    ensures back == [] || back == Paths(Steps(Step(START, b[0]), b[1..]).files)
  {
    var whole, alone, lines := Step(s, x + b[0]), Step(START, b[0]), b[1..];
    StepOpens(s, x);
    StepOpens(s, x + b[0]);
    if NewlyOpened(s, x) != [] { GluedOpens(s, x, b[0]); }
    OpenedAlone(b[0]);
    o := NewlyOpened(s, x + b[0]);
    assert |o| <= 1 && |NewlyOpened(s, x)| <= 1;
    hide Step, Steps, OpensSection, NewlyOpened;
    if whole.scanning {
      var more := StepsAgree(whole, alone, lines);
      assert more == 0;
      back := Paths(Steps(alone, lines).files);
      var all := Paths(Steps(whole, lines).files);
      assert all == all[..|whole.files|] + all[|whole.files|..];
    } else {
      NoneOpened(whole, lines);
      back := [];
    }
  }

  lemma OpenedAlone(opening: string)
    requires DIFF_GIT <= opening
    ensures var alone := Step(START, opening); alone.files == [] && alone.scanning && alone.oldPath.None?
  {
  }

  lemma OrderedAt(s: State, x: string, b: seq<string>, p: string, q: string) returns (k: nat)
    requires Sound(s) && |b| > 0 && DIFF_GIT <= b[0] && forall i :: 1 <= i < |b| ==> !OpensSection(b[i])
    requires var first, second, all := Step(s, x).files, Steps(Step(START, b[0]), b[1..]).files,
                                       Steps(Step(s, x + b[0]), b[1..]).files;
             && |first| + |second| == |all| && (forall f :: f in all ==> f.path == p || f.path == q)
             && (forall f :: f in first ==> f.path == p) && (forall f :: f in second ==> f.path == q)
    ensures var all := Steps(Step(s, x + b[0]), b[1..]).files;
            k <= |all| && forall i :: 0 <= i < |all| ==> all[i].path == if i < k then p else q
  {
    var first, second, all := Step(s, x).files, Steps(Step(START, b[0]), b[1..]).files,
                              Steps(Step(s, x + b[0]), b[1..]).files;
    var o, back := PathsOfWhole(s, x, b);
    StepOpens(s, x);
    hide Step, Steps, OpensSection, NewlyOpened;
    AllAt(first, p);
    AllAt(second, q);
    assert forall path :: path in Paths(s.files) ==> path in Paths(first);
    k := InTwoRuns(all, Paths(s.files), o, back, p, q);
  }
}
