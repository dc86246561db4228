/** Checking annotation targets against one frozen diff, and journaled annotations against another. */
module DiffValidation {
  import opened Prelude
  import opened Text
  import opened PatchParser
  import opened PatchPrinter
  import opened Annotations

  /** What validation looks at of a snapshot. `relative` stands for the path rules of the host: the
      repository-relative form of an input path, or None outside the repository. */
  datatype Snapshot = Snapshot(repository: string, files: seq<DiffFile>)

  type PathRules = string -> Option<string>

  datatype Target = Target(path: string, range: Span, summary: string, rationale: Option<string>)

  datatype Reason = OutsideRepository | BadRange | NotInDiff | OutsideHunks | NotAddressed

  datatype Issue = Issue(path: string, range: Span, reason: Reason)

  datatype Valid = Valid(path: string, newRange: Span, anchor: Digest, summary: string, rationale: Option<string>)

  datatype Candidate = Candidate(target: Target, path: string, file: DiffFile)

  // ----- One target -----

  function FindFile(files: seq<DiffFile>, path: string): (file: Option<DiffFile>)
    ensures file.Some? ==> file.value in files && file.value.path == path
    ensures file.None? ==> forall f :: f in files ==> f.path != path
  {
    if |files| == 0 then None
    else if files[0].path == path then Some(files[0])
    else FindFile(files[1..], path)
  }

  predicate Contains(ranges: seq<Range>, r: Span) {
    exists c :: c in ranges && c.start <= r.start && r.end <= c.end
  }

  predicate HasLine(file: DiffFile, n: int) {
    0 <= n && n in file.newLines
  }

  predicate SameLine(a: DiffFile, b: DiffFile, n: int) {
    HasLine(a, n) && HasLine(b, n) && a.newLines[n] == b.newLines[n]
  }

  /** Both files have the range, with the same text line by line. */
  predicate SameText(a: DiffFile, b: DiffFile, r: Span) {
    forall n :: r.start <= n <= r.end ==> SameLine(a, b, n)
  }

  predicate Addressed(file: DiffFile, first: int, last: int) {
    forall n :: first <= n <= last ==> HasLine(file, n)
  }

  /** The new-side lines from `first` to `last`. */
  function LinesOf(file: DiffFile, first: int, last: int): (lines: seq<string>)
    requires Addressed(file, first, last)
    ensures |lines| == if first <= last then last - first + 1 else 0
    ensures forall k :: 0 <= k < |lines| ==> HasLine(file, first + k) && lines[k] == file.newLines[first + k]
    decreases last - first
  {
    if first > last then []
    else
      assert HasLine(file, last);
      LinesOf(file, first, last - 1) + [file.newLines[last]]
  }

  function SnapshotAnchor(file: DiffFile, path: string, r: Span): Option<Digest> {
    if Addressed(file, r.start, r.end) then AnchorForLines(path, r, LinesOf(file, r.start, r.end)) else None
  }

  function FirstCheck(s: Snapshot, rules: PathRules, t: Target): Result<Candidate, Issue> {
    var path := rules(t.path);
    if path.None? then Err(Issue(t.path, t.range, OutsideRepository))
    else if !ValidSpan(t.range) then Err(Issue(path.value, t.range, BadRange))
    else
      var file := FindFile(s.files, path.value);
      if file.None? then Err(Issue(path.value, t.range, NotInDiff))
      else if !Contains(file.value.newRanges, t.range) then Err(Issue(path.value, t.range, OutsideHunks))
      else Ok(Candidate(t, path.value, file.value))
  }

  function SecondCheck(c: Candidate): Result<Valid, Issue> {
    var anchor := SnapshotAnchor(c.file, c.path, c.target.range);
    if anchor.None? then Err(Issue(c.path, c.target.range, NotAddressed))
    else Ok(Valid(c.path, c.target.range, anchor.value, c.target.summary, c.target.rationale))
  }

  // ----- All targets -----

  function Candidates(s: Snapshot, rules: PathRules, targets: seq<Target>): seq<Candidate> {
    if |targets| == 0 then []
    else
      var last := FirstCheck(s, rules, targets[|targets| - 1]);
      Candidates(s, rules, targets[..|targets| - 1]) + (if last.Ok? then [last.value] else [])
  }

  function FirstIssues(s: Snapshot, rules: PathRules, targets: seq<Target>): seq<Issue> {
    if |targets| == 0 then []
    else
      var last := FirstCheck(s, rules, targets[|targets| - 1]);
      FirstIssues(s, rules, targets[..|targets| - 1]) + (if last.Err? then [last.error] else [])
  }

  function Accepted(candidates: seq<Candidate>): seq<Valid> {
    if |candidates| == 0 then []
    else
      var last := SecondCheck(candidates[|candidates| - 1]);
      Accepted(candidates[..|candidates| - 1]) + (if last.Ok? then [last.value] else [])
  }

  function SecondIssues(candidates: seq<Candidate>): seq<Issue> {
    if |candidates| == 0 then []
    else
      var last := SecondCheck(candidates[|candidates| - 1]);
      SecondIssues(candidates[..|candidates| - 1]) + (if last.Err? then [last.error] else [])
  }

  method ReadAnchor(file: DiffFile, path: string, r: Span) returns (anchor: Option<Digest>)
    ensures anchor == SnapshotAnchor(file, path, r)
  {
    var lines := [];
    var n := r.start;
    while n <= r.end
      invariant n <= r.end + 1 || n == r.start
      invariant Addressed(file, r.start, n - 1) && lines == LinesOf(file, r.start, n - 1)
      decreases r.end - n
    {
      if !HasLine(file, n) { return None; }
      forall m | r.start <= m <= n
        ensures HasLine(file, m)
      {
        assert m == n || r.start <= m <= n - 1;
      }
      lines := lines + [file.newLines[n]];
      assert lines == LinesOf(file, r.start, n);
      n := n + 1;
    }
    return AnchorForLines(path, r, lines);
  }

  method ValidateTargets(s: Snapshot, rules: PathRules, targets: seq<Target>) returns (valid: seq<Valid>, issues: seq<Issue>)
    ensures valid == Accepted(Candidates(s, rules, targets))
    ensures issues == FirstIssues(s, rules, targets) + SecondIssues(Candidates(s, rules, targets))
  {
    hide FirstCheck, SecondCheck;
    issues := [];
    var candidates: seq<Candidate> := [];
    for i := 0 to |targets|
      invariant candidates == Candidates(s, rules, targets[..i]) && issues == FirstIssues(s, rules, targets[..i])
    {
      assert targets[..i + 1][..i] == targets[..i];
      match FirstCheck(s, rules, targets[i])
      case Ok(candidate) => candidates := candidates + [candidate];
      case Err(issue) => issues := issues + [issue];
    }
    assert targets[..|targets|] == targets;
    ghost var first := issues;
    valid := [];
    for i := 0 to |candidates|
      invariant valid == Accepted(candidates[..i]) && issues == first + SecondIssues(candidates[..i])
    {
      assert candidates[..i + 1][..i] == candidates[..i];
      match SecondCheck(candidates[i])
      case Ok(target) => valid := valid + [target];
      case Err(issue) => issues := issues + [issue];
    }
    assert candidates[..|candidates|] == candidates;
  }

  // ----- Revalidation -----

  predicate IsCurrent(s: Snapshot, a: Annotation) {
    var file := FindFile(s.files, a.path);
    && a.repository == s.repository
    && file.Some?
    && Contains(file.value.newRanges, a.newRange)
    && SnapshotAnchor(file.value, a.path, a.newRange) == Some(a.anchor)
  }

  /** The elements for which a test has the given outcome, in their order. */
  function Selected<T>(items: seq<T>, test: T -> bool, outcome: bool): seq<T> {
    if |items| == 0 then []
    else
      var last := items[|items| - 1];
      Selected(items[..|items| - 1], test, outcome) + (if test(last) == outcome then [last] else [])
  }

  function Current(s: Snapshot, annotations: seq<Annotation>): seq<Annotation> {
    Selected(annotations, a => IsCurrent(s, a), true)
  }

  function Stale(s: Snapshot, annotations: seq<Annotation>): seq<Annotation> {
    Selected(annotations, a => IsCurrent(s, a), false)
  }

  method RevalidateAnnotations(s: Snapshot, annotations: seq<Annotation>)
    returns (current: seq<Annotation>, stale: seq<Annotation>)
    ensures current == Current(s, annotations) && stale == Stale(s, annotations)
  {
    current, stale := [], [];
    for i := 0 to |annotations|
      invariant current == Current(s, annotations[..i]) && stale == Stale(s, annotations[..i])
    {
      hide FindFile, Contains, SnapshotAnchor;
      assert annotations[..i + 1][..i] == annotations[..i];
      var a := annotations[i];
      if a.repository != s.repository {
        stale := stale + [a];
        continue;
      }
      var file := FindFile(s.files, a.path);
      if file.None? || !Contains(file.value.newRanges, a.newRange) {
        stale := stale + [a];
        continue;
      }
      var anchor := ReadAnchor(file.value, a.path, a.newRange);
      if anchor != Some(a.anchor) {
        stale := stale + [a];
        continue;
      }
      current := current + [a];
    }
    assert annotations[..|annotations|] == annotations;
  }

  /** Where the elements with one outcome stand in the list. */
  function Positions<T>(items: seq<T>, test: T -> bool, outcome: bool): (places: seq<nat>)
    ensures forall j :: 0 <= j < |places| ==> places[j] < |items| && test(items[places[j]]) == outcome
    ensures forall k :: 0 <= k < |items| && test(items[k]) == outcome ==> k in places
    ensures forall j, k :: 0 <= j < k < |places| ==> places[j] < places[k]
  {
    if |items| == 0 then []
    else
      var last := |items| - 1;
      Positions(items[..last], test, outcome) + (if test(items[last]) == outcome then [last] else [])
  }

  /** Selecting is reading off the places in increasing order. */
  lemma {:induction false} SelectedInOrder<T>(items: seq<T>, test: T -> bool, outcome: bool)
    ensures var places := Positions(items, test, outcome);
            && |Selected(items, test, outcome)| == |places|
            && forall k :: 0 <= k < |places| ==> Selected(items, test, outcome)[k] == items[places[k]]
  {
    if |items| > 0 { SelectedInOrder(items[..|items| - 1], test, outcome); }
  }

  lemma SelectedLast<T>(items: seq<T>, test: T -> bool)
    requires |items| > 0
    ensures var init, last := items[..|items| - 1], items[|items| - 1];
            var yes, no := Selected(init, test, true), Selected(init, test, false);
            && multiset(Selected(items, test, true)) == (if test(last) then multiset(yes) + multiset{last} else multiset(yes))
            && multiset(Selected(items, test, false)) == (if test(last) then multiset(no) else multiset(no) + multiset{last})
  {
  }

  lemma OneMore<T>(yes: multiset<T>, no: multiset<T>, last: T)
    ensures (yes + multiset{last}) + no == (yes + no) + multiset{last}
    ensures yes + (no + multiset{last}) == (yes + no) + multiset{last}
  {
  }

  lemma OneLast<T>(items: seq<T>)
    requires |items| > 0
    ensures multiset(items) == multiset(items[..|items| - 1]) + multiset{items[|items| - 1]}
  {
    assert items == items[..|items| - 1] + [items[|items| - 1]];
  }

  lemma {:induction false} SelectedPartition<T>(items: seq<T>, test: T -> bool)
    ensures multiset(Selected(items, test, true)) + multiset(Selected(items, test, false)) == multiset(items)
  {
    if |items| > 0 {
      var init, last := items[..|items| - 1], items[|items| - 1];
      SelectedPartition(init, test);
      SelectedLast(items, test);
      var yes, no := multiset(Selected(init, test, true)), multiset(Selected(init, test, false));
      OneMore(yes, no, last);
      OneLast(items);
      hide Selected;
    }
  }

  /** Revalidation sorts the annotations into two lists: each keeps the input order and holds exactly
      its own kind, and together they hold every input once. */
  lemma PartitionInOrder(s: Snapshot, annotations: seq<Annotation>)
    ensures var places := Positions(annotations, a => IsCurrent(s, a), true);
            && |Current(s, annotations)| == |places|
            && (forall k :: 0 <= k < |places| ==> Current(s, annotations)[k] == annotations[places[k]])
    ensures var places := Positions(annotations, a => IsCurrent(s, a), false);
            && |Stale(s, annotations)| == |places|
            && (forall k :: 0 <= k < |places| ==> Stale(s, annotations)[k] == annotations[places[k]])
    ensures multiset(Current(s, annotations)) + multiset(Stale(s, annotations)) == multiset(annotations)
  {
    hide IsCurrent;
    var test := a => IsCurrent(s, a);
    SelectedInOrder(annotations, test, true);
    SelectedInOrder(annotations, test, false);
    SelectedPartition(annotations, test);
  }

  // ----- What acceptance means later -----

  /** The annotation recorded for an accepted target. */
  function Recorded(s: Snapshot, v: Valid): Annotation {
    Annotation(AnnotationId(s.repository, v.path, v.newRange, v.summary, v.rationale),
               s.repository, v.path, v.newRange, v.anchor, v.summary, v.rationale)
  }

  lemma {:induction false} AcceptedWasChecked(s: Snapshot, rules: PathRules, targets: seq<Target>, v: Valid)
    requires v in Accepted(Candidates(s, rules, targets))
    ensures IsAccepted(s, v)
  {
    hide FirstCheck, SecondCheck;
    var candidates := Candidates(s, rules, targets);
    var c := AcceptedFrom(candidates, v);
    var t := CandidateFrom(s, rules, targets, c);
    CheckedTwice(s, rules, t, c, v);
  }

  /** A target that passed both checks against `s`. */
  predicate IsAccepted(s: Snapshot, v: Valid) {
    var file := FindFile(s.files, v.path);
    && ValidSpan(v.newRange)
    && file.Some?
    && Contains(file.value.newRanges, v.newRange)
    && SnapshotAnchor(file.value, v.path, v.newRange) == Some(v.anchor)
  }

  lemma CheckedTwice(s: Snapshot, rules: PathRules, t: Target, c: Candidate, v: Valid)
    requires FirstCheck(s, rules, t) == Ok(c) && SecondCheck(c) == Ok(v)
    ensures IsAccepted(s, v)
  {
    hide SnapshotAnchor, Contains;
  }

  lemma {:induction false} AcceptedFrom(candidates: seq<Candidate>, v: Valid) returns (c: Candidate)
    requires v in Accepted(candidates)
    ensures c in candidates && SecondCheck(c) == Ok(v)
  {
    hide SecondCheck;
    var last := candidates[|candidates| - 1];
    if v in Accepted(candidates[..|candidates| - 1]) {
      c := AcceptedFrom(candidates[..|candidates| - 1], v);
    } else {
      c := last;
    }
  }

  lemma {:induction false} CandidateFrom(s: Snapshot, rules: PathRules, targets: seq<Target>, c: Candidate) returns (t: Target)
    requires c in Candidates(s, rules, targets)
    ensures t in targets && FirstCheck(s, rules, t) == Ok(c)
  {
    hide FirstCheck;
    if c in Candidates(s, rules, targets[..|targets| - 1]) {
      t := CandidateFrom(s, rules, targets[..|targets| - 1], c);
    } else {
      t := targets[|targets| - 1];
    }
  }

  /** An accepted target is current against the snapshot it was accepted against. */
  lemma AcceptedIsCurrent(s: Snapshot, rules: PathRules, targets: seq<Target>, v: Valid)
    requires v in Accepted(Candidates(s, rules, targets))
    ensures IsCurrent(s, Recorded(s, v))
  {
    AcceptedWasChecked(s, rules, targets, v);
  }

  ghost predicate LineByLine(file: DiffFile) {
    forall n :: n in file.newLines ==> '\n' !in file.newLines[n]
  }

  lemma SameAnchorSameText(a: DiffFile, b: DiffFile, path: string, r: Span)
    requires LineByLine(a) && LineByLine(b) && ValidSpan(r)
    requires SnapshotAnchor(a, path, r).Some?
    ensures SnapshotAnchor(b, path, r) == SnapshotAnchor(a, path, r)
            <==> SameText(a, b, r)
  {
    if Addressed(b, r.start, r.end) {
      AnchorsMeanText(path, r, LinesOf(a, r.start, r.end), LinesOf(b, r.start, r.end));
      LinesAgree(a, b, r.start, r.end);
      hide LinesOf;
    } else {
      var n :| r.start <= n <= r.end && !HasLine(b, n);
      assert !SameLine(a, b, n);
    }
  }

  lemma LinesAgree(a: DiffFile, b: DiffFile, first: int, last: int)
    requires Addressed(a, first, last) && Addressed(b, first, last)
    ensures LinesOf(a, first, last) == LinesOf(b, first, last) <==> forall n :: first <= n <= last ==> SameLine(a, b, n)
  {
    var x, y := LinesOf(a, first, last), LinesOf(b, first, last);
    hide LinesOf;
    if x == y {
      forall n | first <= n <= last
        ensures SameLine(a, b, n)
      {
        assert HasLine(a, first + (n - first)) && HasLine(b, first + (n - first));
        assert x[n - first] == a.newLines[n] && y[n - first] == b.newLines[n];
      }
    }
    if forall n :: first <= n <= last ==> SameLine(a, b, n) {
      forall k | 0 <= k < |x|
        ensures x[k] == y[k]
      {
        assert SameLine(a, b, first + k);
      }
    }
  }

  /** The files of a snapshot are those of the patch it freezes. */
  ghost predicate FromPatch(s: Snapshot) {
    exists patch :: s.files == ParseDiff(patch)
  }

  ghost predicate AllLineByLine(files: seq<DiffFile>) {
    forall i :: 0 <= i < |files| ==> LineByLine(files[i])
  }

  lemma LineAdded(f: DiffFile, number: nat, content: string)
    requires LineByLine(f) && '\n' !in content
    ensures LineByLine(AddLine(f, number, content))
  {
  }

  lemma StepLineByLine(s: State, line: string)
    requires Sound(s) && AllLineByLine(s.files) && '\n' !in line
    ensures AllLineByLine(Step(s, line).files)
  {
    if s.open && s.newLine.Some? && |line| > 0 {
      LineAdded(Last(s.files), s.newLine.value, line[1..]);
    }
    hide HunkHeader, OpensSection, NamesOldFile, NamesNewFile, NewFilePath, AddLine;
    assert forall path :: LineByLine(DiffFile(path, [], map[]));
    assert s.open ==> forall h :: LineByLine(AddRange(Last(s.files), h));
  }

  lemma {:induction false} StepsLineByLine(lines: seq<string>)
    requires FreeOf(lines, '\n')
    ensures AllLineByLine(Steps(START, lines).files)
  {
    if |lines| > 0 {
      hide Step, AllLineByLine;
      StepsLineByLine(lines[..|lines| - 1]);
      StepLineByLine(Steps(START, lines[..|lines| - 1]), lines[|lines| - 1]);
    }
  }

  /** A line read from a patch contains no line feed. */
  lemma ParsedIsLineByLine(patch: string)
    ensures forall f :: f in ParseDiff(patch) ==> LineByLine(f)
  {
    PiecesAreFree(patch, '\n');
    StepsLineByLine(Split(patch, '\n'));
    hide Steps, Split, LineByLine;
  }

  lemma CurrentLineByLine(s: Snapshot, v: Valid, later: Snapshot)
    requires IsAccepted(s, v)
    requires forall f :: f in s.files || f in later.files ==> LineByLine(f)
    ensures var before, now := FindFile(s.files, v.path), FindFile(later.files, v.path);
            IsCurrent(later, Recorded(s, v)) <==>
              && later.repository == s.repository
              && now.Some?
              && Contains(now.value.newRanges, v.newRange)
              && SameText(before.value, now.value, v.newRange)
  {
    var before, now := FindFile(s.files, v.path), FindFile(later.files, v.path);
    if now.Some? { SameAnchorSameText(before.value, now.value, v.path, v.newRange); }
    hide FindFile, SnapshotAnchor, Contains, LineByLine;
  }

  /** Against any other snapshot an accepted annotation is current exactly when repository, file, hunk
      containment and text all agree. */
  lemma CurrentElsewhere(s: Snapshot, v: Valid, later: Snapshot)
    requires IsAccepted(s, v) && FromPatch(s) && FromPatch(later)
    ensures var before, now := FindFile(s.files, v.path), FindFile(later.files, v.path);
            IsCurrent(later, Recorded(s, v)) <==>
              && later.repository == s.repository
              && now.Some?
              && Contains(now.value.newRanges, v.newRange)
              && SameText(before.value, now.value, v.newRange)
  {
    var p, q :| s.files == ParseDiff(p) && later.files == ParseDiff(q);
    ParsedIsLineByLine(p);
    ParsedIsLineByLine(q);
    hide ParseDiff, LineByLine;
    CurrentLineByLine(s, v, later);
  }

  /** On a file read from a well-formed patch, lying inside a hunk already means being addressed. */
  lemma ContainmentIsEnough(hunks: seq<Hunk>, found: DiffFile, path: string, r: Span)
    requires HasHunks(found, hunks) && ValidSpan(r) && Contains(found.newRanges, r)
    ensures SnapshotAnchor(found, path, r).Some?
  {
    var c :| c in found.newRanges && c.start <= r.start && r.end <= c.end;
    var h := RangeOfHunk(hunks, c);
    hide HasText, NewTexts, RangesOf;
    forall n | r.start <= n <= r.end
      ensures HasLine(found, n)
    {
      assert Covers(h, n);
    }
  }

  lemma {:induction false} RangeOfHunk(hunks: seq<Hunk>, c: Range) returns (h: Hunk)
    requires c in RangesOf(hunks)
    ensures h in hunks && c == Range(h.after.start, h.after.start + h.after.count - 1)
  {
    if c in RangesOf(hunks[..|hunks| - 1]) {
      h := RangeOfHunk(hunks[..|hunks| - 1], c);
    } else {
      h := hunks[|hunks| - 1];
    }
  }

  ghost predicate EachHasHunks(files: seq<DiffFile>) {
    forall f :: f in files ==> exists hunks :: HasHunks(f, hunks)
  }

  lemma {:induction false} NoSecondIssue(s: Snapshot, rules: PathRules, targets: seq<Target>)
    requires EachHasHunks(s.files)
    ensures SecondIssues(Candidates(s, rules, targets)) == []
  {
    if |targets| > 0 {
      var init, last := targets[..|targets| - 1], FirstCheck(s, rules, targets[|targets| - 1]);
      NoSecondIssue(s, rules, init);
      if last.Ok? {
        var c := last.value;
        assert c.file in s.files && ValidSpan(c.target.range) && Contains(c.file.newRanges, c.target.range);
        var hunks :| HasHunks(c.file, hunks);
        ContainmentIsEnough(hunks, c.file, c.path, c.target.range);
        hide SnapshotAnchor, HasHunks, Contains, FirstCheck;
        var all := Candidates(s, rules, init) + [c];
        assert all[..|all| - 1] == Candidates(s, rules, init);
      } else {
        assert Candidates(s, rules, init) + [] == Candidates(s, rules, init);
      }
    }
  }

  /** Against the snapshot of a well-formed patch the second check rejects nothing, whatever the targets. */
  lemma SecondCheckRejectsNothing(s: Snapshot, rules: PathRules, targets: seq<Target>, sections: seq<Section>)
    requires AllGood(sections) && s.files == ParseDiff(ShowPatch(sections))
    ensures SecondIssues(Candidates(s, rules, targets)) == []
  {
    PatchRoundTrip(sections);
    hide HasHunks, ParseDiff, ShowPatch, Changes, AllGood, Describes, FaithfulName;
    var changes := Changes(sections);
    forall f | f in s.files
      ensures exists hunks :: HasHunks(f, hunks)
    {
      var i :| 0 <= i < |s.files| && s.files[i] == f;
      assert ReadBack(changes[i], s.files[i]);
      assert HasHunks(f, changes[i].hunks);
    }
    NoSecondIssue(s, rules, targets);
  }
}
