/** A hunk that the section filter tears in two. One added line has a `diff --git ` behind a carriage return
    or a Unicode separator, the next one looks like the marker of a file `q`. Omitting `q`, which no file of
    the patch goes by, loses that line and cuts the one before it short. */
module TornHunk {
  import opened Prelude
  import opened Text
  import opened GitPaths
  import opened PatchParser
  import opened PatchPrinter
  import opened PatchSections
  import opened SectionFilter
  import opened FilterExactness

  predicate OneLine(s: string) {
    forall c :: c in s ==> !IsTerminator(c)
  }

  /** What the patch is made of: the file's path, the names behind `diff --git ` and the extended headers, the
      place of the hunk, the torn line in two halves with the terminator between them, and the path the second
      line seems to mark. */
  datatype Torn = Torn(
    path: string,
    names: string,
    headers: seq<string>,
    start: nat,
    head: string,
    terminator: char,
    tail: string,
    other: string)

  predicate Fits(w: Torn) {
    && OneLine(w.path) && ' ' !in w.path && OneLine(w.head) && OneLine(w.tail) && OneLine(w.other)
    && OneLine(w.names) && (forall header :: header in w.headers ==> Inert(header) && OneLine(header))
    && IsTerminator(w.terminator) && w.terminator != '\n'
    && w.other != w.path
  }

  function Half(w: Torn): string {
    w.head + [w.terminator]
  }

  function TornLine(w: Torn): string {
    Half(w) + (DIFF_GIT + w.tail)
  }

  function FileOf(w: Torn, lines: seq<Line>): FileDiff {
    FileDiff(None, Some(Bare(w.path)), [Hunk(Side(0, 0, false), Side(w.start, 2, false), "", lines)])
  }

  function SectionWith(w: Torn, lines: seq<Line>): Section {
    Section(w.names, w.headers, Some(FileOf(w, lines)))
  }

  function SectionOf(w: Torn): Section {
    SectionWith(w, [Added(TornLine(w)), Added("++ b/" + w.other)])
  }

  // ----- The patch, line by line -----

  lemma NamesShown(w: Torn, lines: seq<Line>)
    requires ' ' !in w.path
    ensures var f := FileOf(w, lines);
            && GoodNames(f) && OldMarker(f) == "/dev/null" && NewMarker(f) == "b/" + w.path
            && PathOf(f) == w.path && FaithfulName(f)
  {
    assert ShowLabel('b', Bare(w.path)) == "b/" + w.path;
    assert ("b/" + w.path) + "" == "b/" + w.path;
  }

  lemma OneLineShown(x: string)
    ensures ShowLines([Added(x)]) == ["+" + x] && NewTexts([Added(x)]) == [x]
  {
    assert [Added(x)][..0] == [];
  }

  lemma TwoLinesShown(x: string, y: string)
    ensures ShowLines([Added(x), Added(y)]) == ["+" + x, "+" + y]
    ensures NewTexts([Added(x), Added(y)]) == [x, y]
  {
    OneLineShown(x);
    assert [Added(x), Added(y)][..1] == [Added(x)];
  }

  /** The lines in front of the hunk's. */
  function Front(w: Torn): seq<string> {
    [DIFF_GIT + w.names] + w.headers
    + [OLD_MARKER + "/dev/null", NEW_MARKER + ("b/" + w.path), ShowHeader(FileOf(w, []).hunks[0])]
  }

  lemma HunkShown(h: Hunk)
    ensures ShowHunks([h]) == [ShowHeader(h)] + ShowLines(h.lines)
  {
    hide ShowHeader, ShowLines;
    assert [h][..0] == [];
  }

  lemma SameHeader(h: Hunk, g: Hunk)
    requires h.before == g.before && h.after == g.after && h.heading == g.heading
    ensures ShowHeader(h) == ShowHeader(g)
  {
    hide ShowSide;
  }

  lemma ThreeLines(a: string, headers: seq<string>, b: string, c: string, d: string, rest: seq<string>)
    ensures [a] + headers + ([b, c] + ([d] + rest)) == [a] + headers + [b, c, d] + rest
  {
  }

  lemma SectionShown(w: Torn, lines: seq<Line>)
    requires ' ' !in w.path
    ensures GoodNames(FileOf(w, lines))
    ensures ShowSection(SectionWith(w, lines)) == Front(w) + ShowLines(lines)
  {
    var f, h := FileOf(w, lines), FileOf(w, lines).hunks[0];
    NamesShown(w, lines);
    assert f.hunks == [h];
    hide ShowHeader, ShowLines, OldMarker, NewMarker, GoodNames, ShowHunks, FaithfulName, PathOf;
    HunkShown(h);
    SameHeader(h, FileOf(w, []).hunks[0]);
    ThreeLines(DIFF_GIT + w.names, w.headers, OLD_MARKER + OldMarker(f), NEW_MARKER + NewMarker(f), ShowHeader(h),
               ShowLines(lines));
  }

  // ----- What is read of the whole and of each half -----

  lemma TornIsGood(w: Torn)
    requires Fits(w)
    ensures GoodSection(SectionOf(w))
  {
    var lines := [Added(TornLine(w)), Added("++ b/" + w.other)];
    NamesShown(w, lines);
    TwoLinesShown(TornLine(w), "++ b/" + w.other);
    assert '\n' !in DIFF_GIT && '\n' !in "++ b/" && '\n' !in "b/" && '\n' !in "/dev/null";
    hide ShowLines, NewTexts, OldMarker, NewMarker, GoodNames;
    assert GoodHunk(FileOf(w, lines).hunks[0]);
  }

  function PatchText(w: Torn): string
    requires Fits(w)
  {
    TornIsGood(w);
    ShowPatch([SectionOf(w)])
  }

  lemma WholeIsRead(w: Torn)
    requires Fits(w)
    ensures var files := ParseDiff(PatchText(w));
            |files| == 1 && files[0].path == w.path && w.start + 1 in files[0].newLines
  {
    var s := SectionOf(w);
    var h := s.change.value.hunks[0];
    TornIsGood(w);
    NamesShown(w, h.lines);
    TwoLinesShown(TornLine(w), "++ b/" + w.other);
    PatchRoundTrip([s]);
    assert [s][..0] == [] && Changes([s]) == [s.change.value];
    hide ParseDiff, ShowPatch, NewTexts, GoodNames, FaithfulName, PathOf;
    assert Covers(h, w.start + 1);
  }

  function HeadText(w: Torn): string {
    Join(Front(w) + ["+" + Half(w)], '\n')
  }

  function TailLines(w: Torn): seq<string> {
    [DIFF_GIT + w.tail, NEW_MARKER + ("b/" + w.other), ""]
  }

  function TailText(w: Torn): string {
    Join(TailLines(w), '\n')
  }

  lemma {:induction false} JoinTears(front: seq<string>, a: string, b: string, rest: seq<string>)
    ensures Join(front + [a + b] + rest, '\n') == Join(front + [a], '\n') + Join([b] + rest, '\n')
  {
    if |front| == 0 {
      assert front + [a + b] + rest == [a + b] + rest && front + [a] == [a];
      assert ([a + b] + rest)[1..] == rest && ([b] + rest)[1..] == rest;
      if |rest| > 0 {
        Regroup(a, b, ['\n']);
        Regroup(a, b + ['\n'], Join(rest, '\n'));
      }
    } else {
      JoinTears(front[1..], a, b, rest);
      assert (front + [a + b] + rest)[1..] == front[1..] + [a + b] + rest;
      assert (front + [a])[1..] == front[1..] + [a];
      Regroup(front[0] + ['\n'], Join(front[1..] + [a], '\n'), Join([b] + rest, '\n'));
    }
  }

  lemma PatchOfOne(s: Section)
    requires s.change.Some? ==> GoodNames(s.change.value)
    ensures ShowPatch([s]) == Join(ShowSection(s) + [""], '\n')
  {
    hide ShowSection, Join, GoodNames;
    assert [s][..0] == [] && ShowSections([s]) == [] + ShowSection(s);
    assert [] + ShowSection(s) == ShowSection(s);
  }

  lemma LooksLikeMarker(path: string)
    ensures "+" + ("++ b/" + path) == NEW_MARKER + ("b/" + path)
  {
    Regroup("+", "++ b/", path);
    Regroup(NEW_MARKER, "b/", path);
    assert "+" + "++ b/" == NEW_MARKER + "b/";
  }

  lemma SectionIsTorn(w: Torn)
    requires Fits(w)
    ensures GoodSection(SectionOf(w))
    ensures ShowSection(SectionOf(w))
            == Front(w) + [("+" + Half(w)) + (DIFF_GIT + w.tail), NEW_MARKER + ("b/" + w.other)]
  {
    TornIsGood(w);
    hide ShowSection, ShowLines, GoodSection, Front, Half, GoodNames;
    SectionShown(w, [Added(TornLine(w)), Added("++ b/" + w.other)]);
    TwoLinesShown(TornLine(w), "++ b/" + w.other);
    Regroup("+", Half(w), DIFF_GIT + w.tail);
    LooksLikeMarker(w.other);
  }

  lemma PatchIsTorn(w: Torn)
    requires Fits(w)
    ensures PatchText(w) == HeadText(w) + TailText(w)
  {
    var a, b, c := "+" + Half(w), DIFF_GIT + w.tail, NEW_MARKER + ("b/" + w.other);
    SectionIsTorn(w);
    PatchOfOne(SectionOf(w));
    hide ShowSection, GoodSection, Front, Join, ShowPatch, Half, SectionOf;
    JoinTears(Front(w), a, b, [c, ""]);
    assert [b] + [c, ""] == TailLines(w);
    assert Front(w) + [a + b, c] + [""] == Front(w) + [a + b] + [c, ""];
  }

  lemma FrontIsFree(w: Torn)
    requires Fits(w)
    ensures FreeOf(Front(w), '\n')
  {
    HeaderIsFree(FileOf(w, []).hunks[0]);
    assert '\n' !in DIFF_GIT && '\n' !in OLD_MARKER && '\n' !in NEW_MARKER && '\n' !in "b/" && '\n' !in "/dev/null";
    assert '\n' !in w.names && '\n' !in w.path && forall header :: header in w.headers ==> '\n' !in header;
    hide ShowHeader, Fits, Inert, OneLine;
  }

  function HeadFile(w: Torn): FileDiff {
    FileOf(w, [Added(Half(w))])
  }

  lemma HeadSplits(w: Torn)
    requires Fits(w)
    ensures GoodNames(HeadFile(w))
    ensures ParseDiff(HeadText(w)) == ParseLines(ShowSection(SectionWith(w, [Added(Half(w))])))
  {
    FrontIsFree(w);
    assert '\n' !in "+" + Half(w);
    SectionShown(w, [Added(Half(w))]);
    OneLineShown(Half(w));
    hide ShowSection, Front, Split, Join, ParseLines, ShowLines, GoodNames, Half;
    SplitJoin(Front(w) + ["+" + Half(w)], '\n');
  }

  lemma RangeOnly(f: DiffFile, start: HunkStart)
    ensures AddRange(f, start).path == f.path && AddRange(f, start).newLines == f.newLines
  {
  }

  /** A file of one hunk with one new line. */
  lemma OneLineOfFile(f: FileDiff, h: Hunk, text: string)
    requires GoodNames(f) && FaithfulName(f) && f.hunks == [h] && h.lines == [Added(text)]
    ensures FileRead(f).path == PathOf(f) && forall n :: n in FileRead(f).newLines <==> n == h.after.start
  {
    PathIsRead(f);
    OneLineShown(text);
    hide PathRead, PathOf, FaithfulName, GoodNames, Fill, NewTexts, AddRange;
    var empty := DiffFile(PathRead(f), [], map[]);
    var start := HunkStart(h.after.start, h.after.count);
    assert f.hunks[..0] == [] && AddHunks(empty, []) == empty;
    assert FileRead(f) == AddHunk(empty, h);
    RangeOnly(empty, start);
    FillIs(AddRange(empty, start), h.after.start, [text]);
  }

  /** The first half names the file, with one line of the two. */
  lemma HeadIsRead(w: Torn)
    requires Fits(w)
    ensures var files := ParseDiff(HeadText(w));
            |files| == 1 && files[0].path == w.path && forall n :: n in files[0].newLines <==> n == w.start
  {
    HeadSplits(w);
    NamesShown(w, [Added(Half(w))]);
    var f := HeadFile(w);
    assert START.files + [FileRead(f)] == [FileRead(f)];
    hide ShowSection, HeadText, ParseDiff, PathOf, FaithfulName, GoodNames, FileRead, Steps;
    SectionStep(START, SectionWith(w, [Added(Half(w))]));
    OneLineOfFile(f, f.hunks[0], Half(w));
  }

  lemma NamesOther(tail: string, other: string)
    ensures Step(Step(START, DIFF_GIT + tail), NEW_MARKER + ("b/" + other)).files == [DiffFile(other, [], map[])]
  {
    var b := NEW_MARKER + ("b/" + other);
    OpenStep(START, tail);
    MarkerLines(b, "b/" + other);
    assert ("b/" + other)[2..] == other && "/dev/null"[0] == '/' && ("b/" + other)[0] == 'b';
    assert ParseMarkerPath("b/" + other, "b/") == Some(other);
    hide HunkHeader, OpensSection, NamesOldFile, NamesNewFile, ParseMarkerPath;
  }

  /** The second half names the other path. */
  lemma TailIsRead(w: Torn)
    requires Fits(w)
    ensures NameIn(TailText(w)) == Some(w.other)
  {
    var a, b := DIFF_GIT + w.tail, NEW_MARKER + ("b/" + w.other);
    assert '\n' !in DIFF_GIT && '\n' !in NEW_MARKER && '\n' !in "b/";
    SplitJoin(TailLines(w), '\n');
    NamesOther(w.tail, w.other);
    var begun := Step(START, a);
    hide Step, Split, Join;
    EmptyLineAddsNoFile(Step(begun, b));
    StepsOne(START, a);
    StepsConcat(START, [a], [b]);
    StepsOne(begun, b);
    StepsConcat(START, [a] + [b], [""]);
    StepsOne(Step(begun, b), "");
    assert TailLines(w) == [a] + [b] + [""];
  }

  // ----- Where the filter cuts -----

  lemma {:induction false} NoCutBefore(s: string, from: nat, q: nat)
    requires from <= q <= |s| && (forall r :: from <= r < q ==> !IsCut(s, r)) && (q < |s| ==> IsCut(s, q))
    ensures NextCut(s, from) == q
    decreases q - from
  {
    if from < q { NoCutBefore(s, from + 1, q); }
  }

  lemma CutBehind(front: string, rest: string, r: nat)
    requires 0 < r
    ensures IsCut(front + rest, |front| + r) <==> IsCut(rest, r)
  {
    var s, q := front + rest, |front| + r;
    if q < |s| { assert s[q..] == rest[r..] && s[q - 1] == rest[r - 1]; }
  }

  lemma NoCutIn(line: string, c: char, rest: string, r: nat)
    requires OneLine(line) && r <= |line|
    ensures !IsCut(line + [c] + rest, r)
  {
    if r > 0 { assert (line + [c] + rest)[r - 1] == line[r - 1] && line[r - 1] in line; }
  }

  /** A line is passed over, and so is its end, unless a section opens behind it. */
  lemma LineSkipped(line: string, c: char, rest: string)
    requires OneLine(line) && IsTerminator(c)
    ensures var s := line + [c] + rest;
            FirstCut(s) == |line| + 1 + (if DIFF_GIT <= rest || rest == "" then 0 else FirstCut(rest))
  {
    var s, k := line + [c] + rest, |line| + 1;
    var q := k + (if DIFF_GIT <= rest || rest == "" then 0 else FirstCut(rest));
    assert s[k - 1] == c && s[k..] == rest;
    assert k < |s| ==> (IsCut(s, k) <==> DIFF_GIT <= rest);
    forall r | 1 <= r < k
      ensures !IsCut(s, r)
    {
      NoCutIn(line, c, rest, r);
    }
    forall r | k < r <= |s|
      ensures IsCut(s, r) <==> IsCut(rest, r - k)
    {
      CutBehind(line + [c], rest, r - k);
    }
    hide IsCut, OneLine, IsTerminator, NextCut;
    assert q < |s| ==> IsCut(s, q);
    NoCutBefore(s, 1, q);
  }

  /** A line that does not open a section. */
  predicate Passed(line: string) {
    OneLine(line) && !OpensSection(line)
  }

  lemma NoneOpensThere(line: string, c: char, rest: string)
    requires Passed(line) && IsTerminator(c)
    ensures !(DIFF_GIT <= line + [c] + rest)
  {
    var all := line + [c] + rest;
    assert forall i :: 0 <= i < |DIFF_GIT| ==> !IsTerminator(DIFF_GIT[i]);
    assert all[|line|] == c;
    if |line| >= |DIFF_GIT| { assert all[..|DIFF_GIT|] == line[..|DIFF_GIT|]; }
  }

  lemma Glued(a: string, b: string, c: string, d: string)
    ensures (a + b) + c + d == a + (b + c + d)
  {
  }

  lemma JoinFirst(first: string, more: seq<string>)
    requires |more| > 0
    ensures Join([first] + more, '\n') == first + ['\n'] + Join(more, '\n')
  {
    assert ([first] + more)[1..] == more;
  }

  /** No section opens where lines that open none are followed by a terminator. */
  lemma NoneOpensIn(lines: seq<string>, c: char, t: string)
    requires |lines| > 0 && Passed(lines[0]) && IsTerminator(c)
    ensures !(DIFF_GIT <= Join(lines, '\n') + [c] + t)
  {
    hide Passed, OneLine;
    if |lines| == 1 {
      NoneOpensThere(lines[0], c, t);
    } else {
      var more := Join(lines[1..], '\n');
      JoinFirst(lines[0], lines[1..]);
      assert [lines[0]] + lines[1..] == lines;
      hide Join;
      Glued(lines[0] + ['\n'], more, [c], t);
      NoneOpensThere(lines[0], '\n', more + [c] + t);
    }
  }

  lemma {:induction false} LinesSkipped(first: string, more: seq<string>, c: char, t: string)
    requires OneLine(first) && (forall line :: line in more ==> Passed(line)) && IsTerminator(c) && DIFF_GIT <= t
    ensures FirstCut(Join([first] + more, '\n') + [c] + t) == |Join([first] + more, '\n')| + 1
    decreases |more|
  {
    if more == [] {
      assert [first] + more == [first];
      LineSkipped(first, c, t);
    } else {
      var rest := Join(more, '\n') + [c] + t;
      assert [more[0]] + more[1..] == more && more[0] in more;
      LinesSkipped(more[0], more[1..], c, t);
      NoneOpensIn(more, c, t);
      JoinFirst(first, more);
      hide FirstCut, Join, Passed, OneLine;
      Glued(first + ['\n'], Join(more, '\n'), [c], t);
      LineSkipped(first, '\n', rest);
    }
  }

  lemma OneLineConcat(a: string, b: string)
    requires OneLine(a) && OneLine(b)
    ensures OneLine(a + b)
  {
  }

  lemma DecimalOneLine(n: nat)
    ensures OneLine(Decimal(n))
  {
    DecimalReads(n);
    hide Decimal, NumberOf;
  }

  lemma SideOneLine(s: Side)
    ensures OneLine(ShowSide(s))
  {
    DecimalOneLine(s.start);
    DecimalOneLine(s.count);
    assert OneLine(",");
    hide OneLine, Decimal;
    OneLineConcat(Decimal(s.start), ",");
    OneLineConcat(Decimal(s.start) + ",", Decimal(s.count));
  }

  lemma HeaderOneLine(h: Hunk)
    requires OneLine(h.heading)
    ensures OneLine(ShowHeader(h)) && ShowHeader(h)[0] == '@'
  {
    SideOneLine(h.before);
    SideOneLine(h.after);
    assert OneLine("@@ -") && OneLine(" +") && OneLine(" @@");
    hide OneLine, ShowSide;
    OneLineConcat("@@ -", ShowSide(h.before));
    OneLineConcat("@@ -" + ShowSide(h.before), " +");
    OneLineConcat("@@ -" + ShowSide(h.before) + " +", ShowSide(h.after));
    OneLineConcat("@@ -" + ShowSide(h.before) + " +" + ShowSide(h.after), " @@");
    OneLineConcat("@@ -" + ShowSide(h.before) + " +" + ShowSide(h.after) + " @@", h.heading);
  }

  lemma PassedAs(line: string)
    requires OneLine(line) && |line| > 0 && line[0] != 'd'
    ensures Passed(line)
  {
    FirstCharacter(line);
  }

  lemma NewMarkerPasses(path: string)
    requires OneLine(path)
    ensures Passed(NEW_MARKER + ("b/" + path))
  {
    assert OneLine(NEW_MARKER) && OneLine("b/") && NEW_MARKER[0] == '+';
    hide OneLine, Passed;
    OneLineConcat("b/", path);
    OneLineConcat(NEW_MARKER, "b/" + path);
    PassedAs(NEW_MARKER + ("b/" + path));
  }

  lemma MarkersPass(w: Torn)
    requires Fits(w)
    ensures Passed(OLD_MARKER + "/dev/null") && Passed(NEW_MARKER + ("b/" + w.path))
  {
    assert OneLine(OLD_MARKER) && OneLine("/dev/null") && OLD_MARKER[0] == '-';
    hide OneLine, Passed;
    OneLineConcat(OLD_MARKER, "/dev/null");
    PassedAs(OLD_MARKER + "/dev/null");
    NewMarkerPasses(w.path);
  }

  lemma HeadersPass(w: Torn)
    requires Fits(w)
    ensures forall header :: header in w.headers ==> Passed(header)
  {
    hide OneLine, OpensSection, HunkHeader, NamesOldFile, NamesNewFile;
  }

  lemma FrontPasses(first: string, headers: seq<string>, a: string, b: string, c: string)
    requires OneLine(first) && (forall header :: header in headers ==> Passed(header)) && Passed(a) && Passed(b) && Passed(c)
    ensures var lines := [first] + headers + [a, b, c];
            lines[0] == first && OneLine(lines[0]) && forall line :: line in lines[1..] ==> Passed(line)
  {
    hide OneLine, Passed;
    assert ([first] + headers + [a, b, c])[1..] == headers + [a, b, c];
  }

  lemma FrontOneLine(w: Torn)
    requires Fits(w)
    ensures var lines := Front(w); OneLine(lines[0]) && forall line :: line in lines[1..] ==> Passed(line)
  {
    var header := ShowHeader(FileOf(w, []).hunks[0]);
    MarkersPass(w);
    HeadersPass(w);
    HeaderOneLine(FileOf(w, []).hunks[0]);
    PassedAs(header);
    assert OneLine(DIFF_GIT);
    hide ShowHeader, OneLine, Passed, Inert;
    OneLineConcat(DIFF_GIT, w.names);
    FrontPasses(DIFF_GIT + w.names, w.headers, OLD_MARKER + "/dev/null", NEW_MARKER + ("b/" + w.path), header);
  }

  /** The filter cuts the patch behind the terminator and nowhere else. */
  lemma CutOnce(w: Torn)
    requires Fits(w)
    ensures SectionsOf(HeadText(w) + TailText(w)) == [HeadText(w), TailText(w)]
  {
    var front, last, h, t := Front(w), "+" + w.head, HeadText(w), TailText(w);
    FrontOneLine(w);
    TailOpens(w);
    assert OneLine(last) && last[0] == '+';
    PassedAs(last);
    assert |front| > 0;
    LastPiece(front, last, [w.terminator]);
    assert "+" + Half(w) == last + [w.terminator];
    hide Front, Join, OneLine, Passed, FirstCut, SectionsOf, TailText;
    assert [front[0]] + (front[1..] + [last]) == front + [last];
    LinesSkipped(front[0], front[1..] + [last], w.terminator, t);
    assert h == Join(front + [last], '\n') + [w.terminator];
    TwoSections(h, t);
  }

  lemma TwoSections(h: string, t: string)
    requires |h| > 0 && |t| > 0 && FirstCut(h + t) == |h| && FirstCut(t) == |t|
    ensures SectionsOf(h + t) == [h, t]
  {
    hide FirstCut;
    assert (h + t)[..|h|] == h && (h + t)[|h|..] == t;
  }

  lemma {:induction false} LastPiece(front: seq<string>, a: string, b: string)
    ensures Join(front + [a + b], '\n') == Join(front + [a], '\n') + b
  {
    if |front| == 0 {
      assert front + [a + b] == [a + b] && front + [a] == [a];
    } else {
      LastPiece(front[1..], a, b);
      assert (front + [a + b])[1..] == front[1..] + [a + b] && (front + [a])[1..] == front[1..] + [a];
    }
  }

  /** A text of two lines of which the second opens no section. */
  lemma TwoLinesOpen(a: string, b: string)
    requires OneLine(a) && DIFF_GIT <= a && Passed(b)
    ensures var t := Join([a, b, ""], '\n'); DIFF_GIT <= t && FirstCut(t) == |t|
  {
    JoinFirst(a, [b, ""]);
    JoinFirst(b, [""]);
    assert [a] + [b, ""] == [a, b, ""] && [b] + [""] == [b, ""] && Join([""], '\n') == "";
    NoneOpensThere(b, '\n', "");
    hide FirstCut, OneLine, Passed, Join;
    LineSkipped(b, '\n', "");
    LineSkipped(a, '\n', b + ['\n'] + "");
  }

  lemma TailOpens(w: Torn)
    requires Fits(w)
    ensures DIFF_GIT <= TailText(w) && FirstCut(TailText(w)) == |TailText(w)|
  {
    var a, b := DIFF_GIT + w.tail, NEW_MARKER + ("b/" + w.other);
    NewMarkerPasses(w.other);
    assert OneLine(DIFF_GIT);
    OneLineConcat(DIFF_GIT, w.tail);
    TwoLinesOpen(a, b);
  }

  // ----- The line is lost -----

  lemma NameOfOne(piece: string)
    requires |ParseDiff(piece)| == 1
    ensures NameIn(piece) == Some(ParseDiff(piece)[0].path)
  {
    hide ParseDiff;
  }

  lemma FilterLeavesHead(w: Torn)
    requires Fits(w)
    ensures ParseDiff(OmitPaths(HeadText(w) + TailText(w), {w.other})) == ParseDiff(HeadText(w))
  {
    var h, t := HeadText(w), TailText(w);
    assert w.other != w.path;
    HeadIsRead(w);
    TailIsRead(w);
    CutOnce(w);
    assert h != "" || t != "";
    hide ParseDiff, IsKept, NameIn, SectionsOf, HeadText, TailText, Fits, Kept, Concat;
    NameOfOne(h);
    KeptByName(h, {w.other});
    KeptByName(t, {w.other});
    TwoPieces(h, t, {w.other});
  }

  /** One file before and after, of a path that is not omitted and with one line fewer. */
  ghost predicate LosesALine(w: Torn, before: seq<DiffFile>, after: seq<DiffFile>) {
    && |before| == 1 && before[0].path == w.path && w.start + 1 in before[0].newLines
    && |after| == 1 && after[0].path == w.path && w.start + 1 !in after[0].newLines
    && after != FilesOutside(before, {w.other})
  }

  lemma FewerLines(w: Torn, before: seq<DiffFile>, after: seq<DiffFile>)
    requires w.path != w.other && |before| == 1 && before[0].path == w.path && w.start + 1 in before[0].newLines
    requires |after| == 1 && after[0].path == w.path && forall n :: n in after[0].newLines <==> n == w.start
    ensures LosesALine(w, before, after)
  {
    NoneAt(before, w.path, {w.other});
    hide FilesOutside;
    assert before[0] != after[0];
  }

  /** Omitting a path that no file of the patch goes by: the parser reads one file in the patch, of another
      path and with two lines, and what the filter leaves of it has one line fewer. */
  lemma OmittingLosesALine(w: Torn)
    requires Fits(w)
    ensures LosesALine(w, ParseDiff(PatchText(w)), ParseDiff(OmitPaths(PatchText(w), {w.other})))
  {
    hide ParseDiff, OmitPaths, HeadText, TailText, PatchText, LosesALine;
    WholeIsRead(w);
    HeadIsRead(w);
    PatchIsTorn(w);
    FilterLeavesHead(w);
    FewerLines(w, ParseDiff(PatchText(w)), ParseDiff(HeadText(w)));
  }

  /** For one: `+x`, a carriage return and `diff --git ` on one line, `+++ b/q` on the next, and `q` omitted
      from a patch of the file `p`. */
  lemma LinesAreLost()
    ensures var w := Torn("p", "a/p b/p", ["new file mode 100644"], 1, "x", '\r', "", "q");
            Fits(w) && LosesALine(w, ParseDiff(PatchText(w)), ParseDiff(OmitPaths(PatchText(w), {"q"})))
  {
    var header := "new file mode 100644";
    assert OneLine(header) && header[0] == 'n';
    FirstCharacter(header);
    assert OneLine("p") && OneLine("a/p b/p") && OneLine("x") && OneLine("") && OneLine("q") && ' ' !in "p";
    hide OneLine, LosesALine, PatchText, OmitPaths, ParseDiff;
    OmittingLosesALine(Torn("p", "a/p b/p", [header], 1, "x", '\r', "", "q"));
  }
}
