/** Diff annotations, their content keys and their anchors. A digest stands for the text it is taken
    of: two digests are equal exactly when those texts are. */
module Annotations {
  import opened Prelude
  import opened Text
  import opened PatchParser

  type Digest = string

  /** A line range as a caller may ask for it; a valid one is 1-based and not reversed. */
  datatype Span = Span(start: int, end: int)

  datatype Annotation = Annotation(
    id: Digest,
    repository: string,
    path: string,
    newRange: Span,
    anchor: Digest,
    summary: string,
    rationale: Option<string>)

  predicate ValidSpan(r: Span) {
    1 <= r.start <= r.end
  }

  /** A whole number as the runtime prints it. */
  function ShowInt(n: int): string {
    if n < 0 then "-" + Decimal(-n) else Decimal(n)
  }

  function OrEmpty(s: Option<string>): string {
    if s.Some? then s.value else ""
  }

  /** The text an annotation id is the digest of. */
  function AnnotationId(repository: string, path: string, r: Span, summary: string, rationale: Option<string>): Digest {
    Join([repository, path, ShowInt(r.start), ShowInt(r.end), summary, OrEmpty(rationale)], '\n')
  }

  function AnchorText(path: string, r: Span, lines: seq<string>): string {
    path + "\n" + ShowInt(r.start) + "\n" + ShowInt(r.end) + "\n" + (if |lines| == 0 then "" else Join(lines, '\n'))
  }

  /** The anchor of exactly addressed lines. */
  function AnchorForLines(path: string, r: Span, lines: seq<string>): Option<Digest> {
    if !ValidSpan(r) || |lines| != r.end - r.start + 1 then None else Some(AnchorText(path, r, lines))
  }

  // ----- Equal ids mean equal content -----

  lemma {:induction false} DecimalIsDigits(n: nat)
    ensures '\n' !in Decimal(n) && '-' !in Decimal(n) && NumberOf(Decimal(n)) == n
  {
    DecimalReads(n);
  }

  lemma ShowIntInjective(m: int, n: int)
    ensures '\n' !in ShowInt(m)
    ensures ShowInt(m) == ShowInt(n) <==> m == n
  {
    DecimalIsDigits(if m < 0 then -m else m);
    DecimalIsDigits(if n < 0 then -n else n);
    hide Decimal, NumberOf;
    if m < 0 { assert ShowInt(m)[0] == '-' && ShowInt(m)[1..] == Decimal(-m); }
    if n < 0 { assert ShowInt(n)[0] == '-' && ShowInt(n)[1..] == Decimal(-n); }
  }

  /** The whole number a text is printed from, if it is one. */
  function ReadInt(s: string): int {
    if |s| > 0 && s[0] == '-' then 0 - NumberOf(s[1..]) else NumberOf(s)
  }

  /** A text that is a whole number as the runtime prints it. */
  predicate IsIntText(s: string) {
    ShowInt(ReadInt(s)) == s
  }

  lemma IntIsRead(n: int)
    ensures ReadInt(ShowInt(n)) == n && IsIntText(ShowInt(n))
  {
    DecimalIsDigits(if n < 0 then -n else n);
    hide NumberOf, Decimal;
    if n < 0 {
      assert ShowInt(n)[1..] == Decimal(-n);
    } else {
      assert ShowInt(n)[0] in Decimal(n);
    }
  }

  /** Summary and rationale run together as they are in an id. */
  function Wording(summary: string, rationale: Option<string>): string {
    summary + "\n" + OrEmpty(rationale)
  }

  /** The lines of a place, a number range and a wording, as they follow each other in an id. */
  function IdLines(place: seq<string>, r: Span, summary: string, rationale: Option<string>): seq<string> {
    place + ([ShowInt(r.start), ShowInt(r.end)] + (Split(summary, '\n') + Split(OrEmpty(rationale), '\n')))
  }

  lemma SameFronts<T>(a: seq<T>, b: seq<T>, c: seq<T>, d: seq<T>)
    requires |a| == |c|
    ensures a + b == c + d <==> a == c && b == d
  {
    if a + b == c + d {
      assert (a + b)[..|a|] == a && (c + d)[..|c|] == c;
      assert (a + b)[|a|..] == b && (c + d)[|c|..] == d;
    }
  }

  lemma WordingLines(summary: string, rationale: Option<string>)
    ensures Split(Wording(summary, rationale), '\n') == Split(summary, '\n') + Split(OrEmpty(rationale), '\n')
  {
    SplitCut(summary, OrEmpty(rationale), '\n');
  }

  /** Places of as many lines are told apart by the id, and so are wordings. */
  lemma IdLinesMeanWording(p: seq<string>, r: Span, s: string, x: Option<string>,
                           q: seq<string>, t: Span, u: string, y: Option<string>)
    requires |p| == |q|
    ensures IdLines(p, r, s, x) == IdLines(q, t, u, y) <==> p == q && r == t && Wording(s, x) == Wording(u, y)
  {
    ShowIntInjective(r.start, t.start);
    ShowIntInjective(r.end, t.end);
    WordingLines(s, x);
    WordingLines(u, y);
    SplitIsInjective(Wording(s, x), Wording(u, y), '\n');
    hide ShowInt, Split, Wording;
    var a, c := [ShowInt(r.start), ShowInt(r.end)], [ShowInt(t.start), ShowInt(t.end)];
    var b, d := Split(s, '\n') + Split(OrEmpty(x), '\n'), Split(u, '\n') + Split(OrEmpty(y), '\n');
    SameFronts(p, a + b, q, c + d);
    SameFronts(a, b, c, d);
    assert a == c <==> a[0] == c[0] && a[1] == c[1];
  }

  /** Summaries of as many lines are told apart by the wording. */
  lemma WordingMeansContent(s: string, x: Option<string>, u: string, y: Option<string>)
    requires |Split(s, '\n')| == |Split(u, '\n')|
    ensures Wording(s, x) == Wording(u, y) <==> s == u && OrEmpty(x) == OrEmpty(y)
  {
    WordingLines(s, x);
    WordingLines(u, y);
    SplitIsInjective(s, u, '\n');
    SplitIsInjective(OrEmpty(x), OrEmpty(y), '\n');
    hide Split;
    SameFronts(Split(s, '\n'), Split(OrEmpty(x), '\n'), Split(u, '\n'), Split(OrEmpty(y), '\n'));
  }

  function IdOf(a: Annotation): Digest {
    AnnotationId(a.repository, a.path, a.newRange, a.summary, a.rationale)
  }

  /** Repository and path, line by line. */
  function PlaceLines(a: Annotation): seq<string> {
    Split(a.repository, '\n') + Split(a.path, '\n')
  }

  predicate SamePlace(a: Annotation, b: Annotation) {
    a.repository == b.repository && a.path == b.path && a.newRange == b.newRange
  }

  predicate SameContent(a: Annotation, b: Annotation) {
    SamePlace(a, b) && a.summary == b.summary && OrEmpty(a.rationale) == OrEmpty(b.rationale)
  }

  /** What the tool accepts: no empty texts, and a valid range. */
  predicate Receivable(a: Annotation) {
    && a.repository != "" && a.path != "" && a.summary != "" && a.rationale != Some("")
    && ValidSpan(a.newRange)
  }

  /** No line break in the rationale, none in repository and summary but perhaps in front, and none in the
      path but perhaps at its end. */
  predicate Unbroken(a: Annotation)
    requires Receivable(a)
  {
    && '\n' !in a.repository[1..] && '\n' !in a.path[..|a.path| - 1]
    && '\n' !in a.summary[1..] && '\n' !in OrEmpty(a.rationale)
  }

  lemma IdSplits(a: Annotation)
    ensures Split(IdOf(a), '\n') == IdLines(PlaceLines(a), a.newRange, a.summary, a.rationale)
  {
    var start, end, text := ShowInt(a.newRange.start), ShowInt(a.newRange.end), OrEmpty(a.rationale);
    ShowIntInjective(a.newRange.start, 0);
    ShowIntInjective(a.newRange.end, 0);
    OnePiece(start, '\n');
    OnePiece(end, '\n');
    hide ShowInt, Split, Join, SplitAll;
    var rest := [start, end, a.summary, text];
    var tail := Split(a.summary, '\n') + Split(text, '\n');
    SplitJoined([a.repository, a.path] + rest, '\n');
    assert [a.repository, a.path] + rest == [a.repository, a.path, start, end, a.summary, text];
    OneText(a.repository, [a.path] + rest);
    assert [a.repository, a.path] + rest == [a.repository] + ([a.path] + rest);
    OneText(a.path, rest);
    FourTexts(start, end, a.summary, text);
    Regroup(Split(a.repository, '\n'), Split(a.path, '\n'), [start, end] + tail);
  }

  lemma FourTexts(c: string, d: string, e: string, f: string)
    requires Split(c, '\n') == [c] && Split(d, '\n') == [d]
    ensures SplitAll([c, d, e, f], '\n') == [c, d] + (Split(e, '\n') + Split(f, '\n'))
  {
    OneText(f, []);
    OneText(e, [f]);
    OneText(d, [e, f]);
    OneText(c, [d, e, f]);
    assert SplitAll([], '\n') == [];
    hide Split, SplitAll;
    assert [f] + [] == [f] && [e] + [f] == [e, f] && [d] + [e, f] == [d, e, f] && [c] + [d, e, f] == [c, d, e, f];
    var tail := Split(e, '\n') + Split(f, '\n');
    assert Split(f, '\n') + [] == Split(f, '\n');
    assert [c] + ([d] + tail) == [c, d] + tail;
  }

  lemma OneText(text: string, more: seq<string>)
    ensures SplitAll([text] + more, '\n') == Split(text, '\n') + SplitAll(more, '\n')
  {
    hide Split;
    assert ([text] + more)[1..] == more;
  }

  /** Two ids are equal exactly when the annotations, taken apart into lines, are the same lines. */
  lemma IdsMeanLines(a: Annotation, b: Annotation)
    ensures IdOf(a) == IdOf(b) <==>
              IdLines(PlaceLines(a), a.newRange, a.summary, a.rationale) == IdLines(PlaceLines(b), b.newRange, b.summary, b.rationale)
  {
    IdSplits(a);
    IdSplits(b);
    SplitIsInjective(IdOf(a), IdOf(b), '\n');
    hide IdOf, IdLines, PlaceLines, Split;
  }

  /** Between annotations whose repositories and paths have as many lines, above all between those in one
      repository and at one path, equal ids mean the same place and the same wording. */
  lemma IdsMeanWording(a: Annotation, b: Annotation)
    requires |Split(a.repository, '\n')| == |Split(b.repository, '\n')| && |Split(a.path, '\n')| == |Split(b.path, '\n')|
    ensures IdOf(a) == IdOf(b) <==>
              SamePlace(a, b) && Wording(a.summary, a.rationale) == Wording(b.summary, b.rationale)
  {
    IdsMeanLines(a, b);
    IdLinesMeanWording(PlaceLines(a), a.newRange, a.summary, a.rationale, PlaceLines(b), b.newRange, b.summary, b.rationale);
    SplitIsInjective(a.repository, b.repository, '\n');
    SplitIsInjective(a.path, b.path, '\n');
    hide IdOf, IdLines, Split, Wording;
    SameFronts(Split(a.repository, '\n'), Split(a.path, '\n'), Split(b.repository, '\n'), Split(b.path, '\n'));
  }

  /** And where their summaries have as many lines too, equal ids mean equal content. */
  lemma IdsMeanContent(a: Annotation, b: Annotation)
    requires |Split(a.repository, '\n')| == |Split(b.repository, '\n')| && |Split(a.path, '\n')| == |Split(b.path, '\n')|
    requires |Split(a.summary, '\n')| == |Split(b.summary, '\n')|
    ensures IdOf(a) == IdOf(b) <==> SameContent(a, b)
  {
    IdsMeanWording(a, b);
    WordingMeansContent(a.summary, a.rationale, b.summary, b.rationale);
    hide IdOf, Split, Wording;
  }

  lemma ShownIsNotEmpty(n: int)
    ensures ShowInt(n) != ""
  {
  }

  /** Where the numbers stand among the lines of an unbroken annotation and of one with the same id. */
  lemma PlacesAlign(r: seq<string>, p: seq<string>, s: seq<string>, numbers: seq<string>, tail: string,
                    q: seq<string>, t: seq<string>, u: seq<string>, others: seq<string>, more: seq<string>)
    requires 1 <= |r| <= 2 && 1 <= |p| <= 2 && 1 <= |s| <= 2 && |numbers| == |others| == 2
    requires (|r| == 2 ==> r[0] == "") && (|p| == 2 ==> p[1] == "") && (|s| == 2 ==> s[0] == "")
    requires |q| >= 1 && |t| >= 1 && |u| >= 1 && |more| >= 1 && others[0] != "" && others[1] != ""
    requires |q| == 1 ==> q[0] != ""
    requires r + p + (numbers + (s + [tail])) == q + t + (others + (u + more))
    ensures |q + t| == |r + p|
  {
    var all, a, b := r + p + (numbers + (s + [tail])), |r + p|, |q + t|;
    assert all[b] == others[0] && all[b + 1] == others[1] && all[0] == r[0] && all[0] == q[0];
    assert |all| == a + 3 + |s| == b + 2 + |u| + |more|;
    assert all[a + 2] == s[0];
    assert |p| == 2 ==> all[a - 1] == p[1];
  }

  lemma TextsAlign(r: seq<string>, p: seq<string>, q: seq<string>, t: seq<string>)
    requires 1 <= |r| <= 2 && 1 <= |p| <= 2 && (|r| == 2 ==> r[0] == "") && (|p| == 2 ==> p[1] == "")
    requires |q| >= 1 && |t| >= 1 && (|q| == 1 ==> q[0] != "") && (|t| == 1 ==> t[0] != "")
    requires r + p == q + t
    ensures |q| == |r| && |t| == |p|
  {
    var all := r + p;
    assert |q| + |t| == |all|;
    assert all[0] == r[0] == q[0];
    assert |p| == 2 ==> all[|all| - 1] == p[1];
    assert all[|all| - 1] == t[|t| - 1];
  }

  lemma UnbrokenIsAlone(a: Annotation, b: Annotation)
    requires Receivable(a) && Receivable(b) && Unbroken(a) && IdOf(b) == IdOf(a)
    ensures SameContent(b, a)
  {
    IdsMeanLines(a, b);
    var r, p, s := Split(a.repository, '\n'), Split(a.path, '\n'), Split(a.summary, '\n');
    var q, t, u := Split(b.repository, '\n'), Split(b.path, '\n'), Split(b.summary, '\n');
    var more := Split(OrEmpty(b.rationale), '\n');
    LeadingSeparator(a.repository, '\n');
    TrailingSeparator(a.path, '\n');
    LeadingSeparator(a.summary, '\n');
    OnePiece(OrEmpty(a.rationale), '\n');
    if |q| == 1 { FirstPieceEmpty(b.repository, '\n'); }
    if |t| == 1 { FirstPieceEmpty(b.path, '\n'); }
    if |u| == 1 { FirstPieceEmpty(b.summary, '\n'); }
    var numbers, others := [ShowInt(a.newRange.start), ShowInt(a.newRange.end)], [ShowInt(b.newRange.start), ShowInt(b.newRange.end)];
    ShownIsNotEmpty(b.newRange.start);
    ShownIsNotEmpty(b.newRange.end);
    hide IdOf, Split, ShowInt;
    PlacesAlign(r, p, s, numbers, OrEmpty(a.rationale), q, t, u, others, more);
    SameFronts(r + p, numbers + (s + [OrEmpty(a.rationale)]), q + t, others + (u + more));
    SameFronts(numbers, s + [OrEmpty(a.rationale)], others, u + more);
    TextsAlign(r, p, q, t);
    var wording := s + [OrEmpty(a.rationale)];
    assert wording == u + more && wording[0] == s[0] && wording[0] == u[0];
    IdsMeanContent(b, a);
  }

  lemma JoinedOnce(a: string, rest: seq<string>)
    requires |rest| > 0
    ensures Join([a] + rest, '\n') == a + "\n" + Join(rest, '\n')
  {
    assert ([a] + rest)[1..] == rest;
  }

  lemma JoinedTwice(a: string, b: string, rest: seq<string>)
    requires |rest| > 0
    ensures Join([a, b] + rest, '\n') == (a + "\n" + b) + "\n" + Join(rest, '\n')
  {
    JoinedOnce(a, [b] + rest);
    JoinedOnce(b, rest);
    assert [a, b] + rest == [a] + ([b] + rest);
    hide Join;
    Regroup(a + "\n", b + "\n", Join(rest, '\n'));
    Regroup(a + "\n", b, "\n");
  }

  lemma BrokenPlace(a: Annotation) returns (b: Annotation)
    requires Receivable(a) && ('\n' in a.repository[1..] || '\n' in a.path[..|a.path| - 1])
    ensures Receivable(b) && IdOf(b) == IdOf(a) && !SameContent(b, a)
  {
    var all, q := a.repository + "\n" + a.path, |a.repository|;
    if '\n' in a.repository[1..] {
      var k :| 0 <= k < |a.repository[1..]| && a.repository[1..][k] == '\n';
      q := k + 1;
    } else {
      var k :| 0 <= k < |a.path| - 1 && a.path[k] == '\n';
      q := |a.repository| + 1 + k;
    }
    assert all[q] == '\n';
    var repository, path := CutElsewhere(a.repository, a.path, '\n', q);
    b := a.(repository := repository, path := path);
    var rest := [ShowInt(a.newRange.start), ShowInt(a.newRange.end), a.summary, OrEmpty(a.rationale)];
    hide ShowInt;
    JoinedTwice(a.repository, a.path, rest);
    JoinedTwice(repository, path, rest);
    hide Join;
    assert [a.repository, a.path] + rest == [a.repository, a.path, ShowInt(a.newRange.start), ShowInt(a.newRange.end), a.summary, OrEmpty(a.rationale)];
    assert [repository, path] + rest == [repository, path, ShowInt(a.newRange.start), ShowInt(a.newRange.end), a.summary, OrEmpty(a.rationale)];
  }

  /** A wording broken behind its first character can be read as another one. */
  lemma OtherWording(summary: string, rationale: Option<string>) returns (s: string, x: Option<string>)
    requires summary != "" && ('\n' in summary[1..] || '\n' in OrEmpty(rationale))
    ensures Wording(s, x) == Wording(summary, rationale) && s != summary && s != "" && x != Some("")
  {
    var all, q := summary + "\n" + OrEmpty(rationale), |summary|;
    if '\n' in summary[1..] {
      var k :| 0 <= k < |summary[1..]| && summary[1..][k] == '\n';
      q := k + 1;
    } else {
      var k :| 0 <= k < |OrEmpty(rationale)| && OrEmpty(rationale)[k] == '\n';
      q := |summary| + 1 + k;
    }
    assert all[q] == '\n';
    var text;
    s, text := CutElsewhere(summary, OrEmpty(rationale), '\n', q);
    x := if text == "" then None else Some(text);
  }

  lemma BrokenWording(a: Annotation) returns (b: Annotation)
    requires Receivable(a) && ('\n' in a.summary[1..] || '\n' in OrEmpty(a.rationale))
    ensures Receivable(b) && IdOf(b) == IdOf(a) && !SameContent(b, a)
  {
    var summary, rationale := OtherWording(a.summary, a.rationale);
    b := a.(summary := summary, rationale := rationale);
    IdsMeanWording(b, a);
    hide IdOf, Split, Wording;
  }

  /** Among the annotations the tool accepts, an id stands for one content alone exactly when no line break
      in repository, path, summary or rationale has text on both of its sides that could go elsewhere. */
  lemma IdIsUnambiguous(a: Annotation)
    requires Receivable(a)
    ensures (forall b :: Receivable(b) && IdOf(b) == IdOf(a) ==> SameContent(b, a)) <==> Unbroken(a)
  {
    hide IdOf;
    if '\n' in a.repository[1..] || '\n' in a.path[..|a.path| - 1] {
      var b := BrokenPlace(a);
    } else if '\n' in a.summary[1..] || '\n' in OrEmpty(a.rationale) {
      var b := BrokenWording(a);
    } else {
      forall b | Receivable(b) && IdOf(b) == IdOf(a)
        ensures SameContent(b, a)
      {
        UnbrokenIsAlone(a, b);
      }
    }
  }

  /** For one path and range the anchor determines the text, line by line. */
  lemma AnchorsMeanText(path: string, r: Span, a: seq<string>, b: seq<string>)
    requires FreeOf(a, '\n') && FreeOf(b, '\n') && |a| == |b| == r.end - r.start + 1 && ValidSpan(r)
    ensures AnchorForLines(path, r, a) == AnchorForLines(path, r, b) <==> a == b
  {
    var prefix := path + "\n" + ShowInt(r.start) + "\n" + ShowInt(r.end) + "\n";
    SamePrefix(prefix, Join(a, '\n'), Join(b, '\n'));
    SplitJoin(a, '\n');
    SplitJoin(b, '\n');
  }
}
