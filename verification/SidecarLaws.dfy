/** What the ids of the sidecar tell apart, and the algebra of superseding: stamping a batch and then merging it
    comes to the same as adding its annotations one by one, as long as only anchors count. */
module SidecarLaws {
  import opened Prelude
  import opened Text
  import opened Annotations
  import opened Sidecar
  import opened SidecarStore

  // ----- Ids -----

  predicate OneLineNote(n: Note) {
    '\n' !in n.summary
  }

  /** A path that could as well end earlier: after one of its line breaks, with some text in front of it,
      come numbers that would do for a range, the range itself counting as the last of them. */
  predicate MayEndEarlier(path: string) {
    var lines := Split(path, '\n');
    exists j :: 1 <= j < |lines| && EndsAt(lines, j)
  }

  predicate EndsAt(lines: seq<string>, j: nat)
    requires 1 <= j < |lines|
  {
    (j == 1 ==> lines[0] != "") && IsIntText(lines[j]) && (j < |lines| - 1 ==> IsIntText(lines[j + 1]))
  }

  function NoteLines(path: string, n: Note): seq<string> {
    IdLines(Split(path, '\n'), n.range, n.summary, n.rationale)
  }

  lemma NoteIdSplits(path: string, n: Note)
    ensures Split(NoteId(path, n), '\n') == NoteLines(path, n)
  {
    var start, end, text := ShowInt(n.range.start), ShowInt(n.range.end), OrEmpty(n.rationale);
    ShowIntInjective(n.range.start, 0);
    ShowIntInjective(n.range.end, 0);
    OnePiece(start, '\n');
    OnePiece(end, '\n');
    hide ShowInt, Split, Join, SplitAll;
    var rest := [start, end, n.summary, text];
    SplitJoined([path] + rest, '\n');
    assert [path] + rest == [path, start, end, n.summary, text];
    OneText(path, rest);
    FourTexts(start, end, n.summary, text);
  }

  /** Two ids are equal exactly when the annotations, taken apart into lines, are the same lines. */
  lemma NoteIdsMeanLines(p: string, a: Note, q: string, b: Note)
    ensures NoteId(p, a) == NoteId(q, b) <==> NoteLines(p, a) == NoteLines(q, b)
  {
    NoteIdSplits(p, a);
    NoteIdSplits(q, b);
    SplitIsInjective(NoteId(p, a), NoteId(q, b), '\n');
    hide NoteId, NoteLines, Split;
  }

  /** Between paths of as many lines, above all at one path, equal ids mean the same path, range and
      wording. */
  lemma NoteIdsMeanWording(p: string, a: Note, q: string, b: Note)
    requires |Split(p, '\n')| == |Split(q, '\n')|
    ensures NoteId(p, a) == NoteId(q, b) <==>
              p == q && a.range == b.range && Wording(a.summary, a.rationale) == Wording(b.summary, b.rationale)
  {
    NoteIdsMeanLines(p, a, q, b);
    IdLinesMeanWording(Split(p, '\n'), a.range, a.summary, a.rationale, Split(q, '\n'), b.range, b.summary, b.rationale);
    SplitIsInjective(p, q, '\n');
    hide NoteId, IdLines, Split, Wording;
  }

  lemma NoteLinesStand(path: string, n: Note)
    ensures var lines, all := Split(path, '\n'), NoteLines(path, n);
            && |all| >= |lines| + 4 && all[..|lines|] == lines && (forall i :: 0 <= i < |lines| ==> all[i] == lines[i])
            && all[|lines|] == ShowInt(n.range.start) && all[|lines| + 1] == ShowInt(n.range.end)
  {
    hide Split, ShowInt;
  }

  /** An id shared with a shorter path shows where the longer one could end. */
  lemma LongerPathMayEndEarlier(p: string, a: Note, q: string, b: Note)
    requires q != "" && NoteId(p, a) == NoteId(q, b) && |Split(q, '\n')| < |Split(p, '\n')|
    ensures MayEndEarlier(p)
  {
    if |Split(q, '\n')| == 1 { FirstPieceEmpty(q, '\n'); }
    NoteIdsMeanLines(p, a, q, b);
    IntIsRead(b.range.start);
    IntIsRead(b.range.end);
    NoteLinesStand(p, a);
    NoteLinesStand(q, b);
    hide NoteId, NoteLines, Split, ShowInt, IsIntText;
    var lines, j := Split(p, '\n'), |Split(q, '\n')|;
    assert NoteLines(p, a)[0] == NoteLines(q, b)[0];
    assert EndsAt(lines, j);
  }

  /** At one path, or between paths that cannot end earlier, one-line summaries are told apart by the id:
      it means path, anchor and rationale. */
  lemma NoteIdsMeanContent(p: string, a: Note, q: string, b: Note)
    requires p == q || (p != "" && q != "" && !MayEndEarlier(p) && !MayEndEarlier(q))
    requires OneLineNote(a) && OneLineNote(b)
    ensures NoteId(p, a) == NoteId(q, b) <==> p == q && SameAnchor(a, b) && OrEmpty(a.rationale) == OrEmpty(b.rationale)
  {
    OnePiece(a.summary, '\n');
    OnePiece(b.summary, '\n');
    WordingMeansContent(a.summary, a.rationale, b.summary, b.rationale);
    hide NoteId, Split, Wording, MayEndEarlier;
    if |Split(p, '\n')| == |Split(q, '\n')| {
      NoteIdsMeanWording(p, a, q, b);
    } else if NoteId(p, a) == NoteId(q, b) {
      if |Split(q, '\n')| < |Split(p, '\n')| {
        LongerPathMayEndEarlier(p, a, q, b);
      } else {
        LongerPathMayEndEarlier(q, b, p, a);
      }
    }
  }

  /** No line break in the rationale, and none in the summary but perhaps in front. */
  predicate UnbrokenNote(n: Note)
    requires n.summary != ""
  {
    '\n' !in n.summary[1..] && '\n' !in OrEmpty(n.rationale)
  }

  lemma UnbrokenNoteIsAlone(path: string, n: Note, q: string, b: Note)
    requires n.summary != "" && b.summary != "" && q != "" && UnbrokenNote(n) && !MayEndEarlier(path)
    requires NoteId(q, b) == NoteId(path, n)
    ensures q == path && SameAnchor(b, n) && OrEmpty(b.rationale) == OrEmpty(n.rationale)
  {
    NoteIdsMeanLines(path, n, q, b);
    LeadingSeparator(n.summary, '\n');
    OnePiece(OrEmpty(n.rationale), '\n');
    ShownIsNotEmpty(b.range.end);
    if |Split(b.summary, '\n')| == 1 { FirstPieceEmpty(b.summary, '\n'); }
    hide NoteId, Split, Wording, MayEndEarlier, ShowInt;
    var lines, others, s, u := Split(path, '\n'), Split(q, '\n'), Split(n.summary, '\n'), Split(b.summary, '\n');
    var all := NoteLines(path, n);
    assert |all| == |lines| + 3 + |s| == |others| + 2 + |u| + |Split(OrEmpty(b.rationale), '\n')|;
    assert NoteLines(q, b)[|others| + 1] == ShowInt(b.range.end) && NoteLines(q, b)[|others| + 2] == u[0];
    assert all[|lines| + 2] == s[0];
    if |others| < |lines| { LongerPathMayEndEarlier(path, n, q, b); }
    assert |others| == |lines|;
    NoteIdsMeanWording(q, b, path, n);
    WordingMeansContent(b.summary, b.rationale, n.summary, n.rationale);
  }

  /** Lines taken apart behind line `j`. */
  lemma LineTaken(all: seq<string>, lines: seq<string>, j: nat)
    requires 1 <= j < |lines| && |all| >= |lines| + 4 && all[..|lines|] == lines
    ensures all == all[..j] + ([all[j], all[j + 1]] + ([all[j + 2], all[j + 3]] + all[j + 4..]))
    ensures all[j] == lines[j] && (j < |lines| - 1 ==> all[j + 1] == lines[j + 1]) && all[..j] == lines[..j]
  {
    assert all[..|lines|][j] == all[j];
    if j < |lines| - 1 { assert all[..|lines|][j + 1] == all[j + 1]; }
  }

  /** The annotation an id also stands for when its path could end at line `j`. */
  lemma EarlierEnd(path: string, n: Note, j: nat) returns (q: string, b: Note)
    requires 1 <= j < |Split(path, '\n')| && EndsAt(Split(path, '\n'), j)
    ensures NoteId(q, b) == NoteId(path, n) && q != path && q != "" && b.summary != ""
  {
    var lines, all := Split(path, '\n'), NoteLines(path, n);
    NoteIdSplits(path, n);
    PiecesAreFree(NoteId(path, n), '\n');
    IntIsRead(n.range.start);
    NoteLinesStand(path, n);
    hide NoteId, Split, ShowInt, NoteLines, IdLines, IsIntText, ReadInt;
    LineTaken(all, lines, j);
    assert IsIntText(all[j]) && IsIntText(all[j + 1]);
    q, b := Arranged(all[..j], all[j], all[j + 1], [all[j + 2], all[j + 3]], all[j + 4..]);
    NoteIdsMeanLines(q, b, path, n);
    assert |Split(q, '\n')| == j;
  }

  /** The annotation made of lines. */
  lemma Arranged(front: seq<string>, start: string, end: string, summary: seq<string>, rest: seq<string>)
    returns (q: string, b: Note)
    requires FreeOf(front, '\n') && FreeOf(summary, '\n') && FreeOf(rest, '\n') && IsIntText(start) && IsIntText(end)
    requires |front| > 0 && |summary| == 2 && |rest| > 0 && (|front| == 1 ==> front[0] != "")
    ensures NoteLines(q, b) == front + ([start, end] + (summary + rest))
    ensures Split(q, '\n') == front && q != "" && b.summary != ""
  {
    TwoLinesJoined(summary);
    FrontIsNotEmpty(front);
    hide Join, Split, ReadInt, ShowInt;
    q := Join(front, '\n');
    b := Note(None, Span(ReadInt(start), ReadInt(end)), Join(summary, '\n'), Some(Join(rest, '\n')));
    SplitJoin(front, '\n');
    SplitJoin(summary, '\n');
    SplitJoin(rest, '\n');
  }

  lemma TwoLinesJoined(lines: seq<string>)
    requires |lines| == 2
    ensures Join(lines, '\n') != ""
  {
  }

  lemma FrontIsNotEmpty(lines: seq<string>)
    requires |lines| > 0 && (|lines| == 1 ==> lines[0] != "")
    ensures Join(lines, '\n') != ""
  {
  }

  /** Among annotations with a path and a summary, an id stands for one content alone exactly when the
      rationale has no line break, the summary none but perhaps in front, and the path cannot end earlier. */
  lemma NoteIdIsUnambiguous(path: string, n: Note)
    requires path != "" && n.summary != ""
    ensures (forall q, b: Note :: q != "" && b.summary != "" && NoteId(q, b) == NoteId(path, n) ==>
               q == path && SameAnchor(b, n) && OrEmpty(b.rationale) == OrEmpty(n.rationale))
            <==> UnbrokenNote(n) && !MayEndEarlier(path)
  {
    hide NoteId, Split, EndsAt;
    if !UnbrokenNote(n) {
      var summary, rationale := OtherWording(n.summary, n.rationale);
      var b := n.(summary := summary, rationale := rationale);
      NoteIdsMeanWording(path, b, path, n);
      assert NoteId(path, b) == NoteId(path, n) && !SameAnchor(b, n);
    } else if MayEndEarlier(path) {
      var lines := Split(path, '\n');
      var j :| 1 <= j < |lines| && EndsAt(lines, j);
      var q, b := EarlierEnd(path, n, j);
    } else {
      hide MayEndEarlier, UnbrokenNote;
      forall q, b: Note | q != "" && b.summary != "" && NoteId(q, b) == NoteId(path, n)
        ensures q == path && SameAnchor(b, n) && OrEmpty(b.rationale) == OrEmpty(n.rationale)
      {
        UnbrokenNoteIsAlone(path, n, q, b);
      }
    }
  }

  // ----- Superseding -----

  ghost predicate OneAnchorEach(notes: seq<Note>) {
    forall i, j :: 0 <= i < j < |notes| ==> !SameAnchor(notes[i], notes[j])
  }

  lemma FindIsThe(notes: seq<Note>, n: Note, j: nat)
    requires OneAnchorEach(notes) && j < |notes| && SameAnchor(notes[j], n)
    ensures FindAnchor(notes, n) == j
  {
    var k := FindAnchor(notes, n);
    assert k <= j;
    if k < j { assert SameAnchor(notes[k], notes[j]); }
  }

  lemma StampIsComputed(path: string, n: Note)
    ensures Stamp(path, n).id == Some(NoteId(path, Stamp(path, n)))
  {
  }

  /** A note with its rationale spelled out: none and an empty one are the same. */
  function Plain(n: Note): Note {
    n.(rationale := Some(OrEmpty(n.rationale)))
  }

  function PlainNotes(notes: seq<Note>): (r: seq<Note>)
    ensures |r| == |notes| && forall i :: 0 <= i < |r| ==> r[i] == Plain(notes[i])
  {
    seq(|notes|, i requires 0 <= i < |notes| => Plain(notes[i]))
  }

  lemma PlainAnchor(notes: seq<Note>, n: Note)
    ensures FindAnchor(PlainNotes(notes), Plain(n)) == FindAnchor(notes, n)
  {
    var k, p := FindAnchor(notes, n), FindAnchor(PlainNotes(notes), Plain(n));
    assert k < |notes| ==> SameAnchor(PlainNotes(notes)[k], Plain(n));
    assert p < |notes| ==> SameAnchor(notes[p], n);
  }

  lemma PlainUpsert(notes: seq<Note>, n: Note)
    ensures PlainNotes(Upsert(notes, n)) == Upsert(PlainNotes(notes), Plain(n))
  {
    PlainAnchor(notes, n);
    hide FindAnchor, Plain;
  }

  function UpsertAll(notes: seq<Note>, incoming: seq<Note>): seq<Note> {
    if |incoming| == 0 then notes else Upsert(UpsertAll(notes, incoming[..|incoming| - 1]), incoming[|incoming| - 1])
  }

  // ----- A batch as one list of operations -----

  function PlainFile(f: FileNotes): FileNotes {
    f.(notes := PlainNotes(f.notes))
  }

  function PlainFiles(files: seq<FileNotes>): (r: seq<FileNotes>)
    ensures |r| == |files| && forall i :: 0 <= i < |r| ==> r[i] == PlainFile(files[i])
  {
    seq(|files|, i requires 0 <= i < |files| => PlainFile(files[i]))
  }

  /** The files after stamping a batch into them, entry by entry. */
  function AddFiles(files: seq<FileNotes>, batch: seq<FileNotes>): seq<FileNotes> {
    if |batch| == 0 then files else StampFile(AddFiles(files, batch[..|batch| - 1]), batch[|batch| - 1])
  }

  lemma PlainStamp(path: string, n: Note)
    ensures Plain(Stamp(path, n)) == Stamp(path, Plain(n))
  {
  }

  lemma {:induction false} PlainStampNotes(path: string, held: seq<Note>, notes: seq<Note>)
    ensures PlainNotes(StampNotes(path, held, notes)) == StampNotes(path, PlainNotes(held), PlainNotes(notes))
  {
    hide Upsert, Stamp, Plain;
    if |notes| > 0 {
      var init, last := notes[..|notes| - 1], notes[|notes| - 1];
      PlainStampNotes(path, held, init);
      PlainStamp(path, last);
      PlainUpsert(StampNotes(path, held, init), Stamp(path, last));
      assert PlainNotes(notes)[..|notes| - 1] == PlainNotes(init);
    }
  }

  lemma PlainPath(files: seq<FileNotes>, path: string)
    ensures FindPath(PlainFiles(files), path) == FindPath(files, path)
  {
    var k, p := FindPath(files, path), FindPath(PlainFiles(files), path);
    assert k < |files| ==> PlainFiles(files)[k].path == path;
    assert p < |files| ==> files[p].path == path;
  }

  lemma PlainStampFile(files: seq<FileNotes>, f: FileNotes)
    ensures PlainFiles(StampFile(files, f)) == StampFile(PlainFiles(files), PlainFile(f))
  {
    PlainPath(files, f.path);
    var k := FindPath(files, f.path);
    var entry := WithEntry(files, f.path)[k];
    PlainStampNotes(f.path, entry.notes, f.notes);
    hide FindPath, StampNotes, PlainNotes;
    assert PlainNotes([]) == [];
  }

  lemma {:induction false} PlainAddFiles(files: seq<FileNotes>, batch: seq<FileNotes>)
    ensures PlainFiles(AddFiles(files, batch)) == AddFiles(PlainFiles(files), PlainFiles(batch))
  {
    hide StampFile, PlainFile;
    if |batch| > 0 {
      PlainAddFiles(files, batch[..|batch| - 1]);
      PlainStampFile(AddFiles(files, batch[..|batch| - 1]), batch[|batch| - 1]);
      assert PlainFiles(batch)[..|batch| - 1] == PlainFiles(batch[..|batch| - 1]);
    }
  }

  lemma {:induction false} StampFilesAreAdded(batch: seq<FileNotes>)
    ensures StampFiles(batch) == AddFiles([], batch)
  {
    if |batch| > 0 { StampFilesAreAdded(batch[..|batch| - 1]); }
  }

  /** Merging one file when only anchors count. */
  function Fold(files: seq<FileNotes>, f: FileNotes): seq<FileNotes> {
    var k := FindPath(files, f.path);
    if k == |files| then files + [f]
    else files[k := FileNotes(f.path, Summarised(f.summary, files[k].summary), UpsertAll(files[k].notes, f.notes))]
  }

  function FoldAll(files: seq<FileNotes>, incoming: seq<FileNotes>): seq<FileNotes> {
    if |incoming| == 0 then files else Fold(FoldAll(files, incoming[..|incoming| - 1]), incoming[|incoming| - 1])
  }

  // ----- Superseding in a batch and superseding in the store come to the same -----

  lemma UpsertCommutes(notes: seq<Note>, n: Note, last: Note)
    requires FindAnchor(notes, n) < |notes| && !SameAnchor(n, last)
    ensures Upsert(Upsert(notes, n), last) == Upsert(Upsert(notes, last), n)
  {
    var k, p := FindAnchor(notes, n), FindAnchor(notes, last);
    FindUpdated(notes, n, k, last);
    if p < |notes| { FindUpdated(notes, last, p, n); } else { FindAppended(notes, last, n); }
    hide FindAnchor;
  }

  /** Replacing a note by one with the same anchor leaves every search result. */
  lemma FindUpdated(notes: seq<Note>, x: Note, k: nat, n: Note)
    requires k < |notes| && SameAnchor(notes[k], x)
    ensures FindAnchor(notes[k := x], n) == FindAnchor(notes, n)
  {
    var a, b := FindAnchor(notes[k := x], n), FindAnchor(notes, n);
    assert a < |notes| ==> SameAnchor(notes[a], n);
    assert b < |notes| ==> SameAnchor(notes[k := x][b], n);
    hide FindAnchor;
  }

  lemma FindAppended(notes: seq<Note>, x: Note, n: Note)
    requires FindAnchor(notes, n) < |notes|
    ensures FindAnchor(notes + [x], n) == FindAnchor(notes, n)
  {
    var a, b := FindAnchor(notes + [x], n), FindAnchor(notes, n);
    assert (notes + [x])[b] == notes[b];
    assert forall i :: 0 <= i < b ==> (notes + [x])[i] == notes[i];
    assert a < |notes| ==> (notes + [x])[a] == notes[a];
  }

  lemma UpsertTwice(notes: seq<Note>, before: Note, n: Note)
    requires SameAnchor(before, n)
    ensures Upsert(Upsert(notes, before), n) == Upsert(notes, n)
  {
    var k := FindAnchor(notes, n);
    SameSearch(notes, before, n);
    if k < |notes| {
      FindUpdated(notes, before, k, n);
    } else {
      FindLast(notes, before, n);
    }
    hide FindAnchor;
  }

  lemma {:induction false} SameSearch(notes: seq<Note>, a: Note, b: Note)
    requires SameAnchor(a, b)
    ensures FindAnchor(notes, a) == FindAnchor(notes, b)
  {
    if |notes| > 0 { SameSearch(notes[1..], a, b); }
  }

  lemma FindLast(notes: seq<Note>, x: Note, n: Note)
    requires FindAnchor(notes, n) == |notes| && SameAnchor(x, n)
    ensures FindAnchor(notes + [x], n) == |notes|
  {
    var a := FindAnchor(notes + [x], n);
    assert forall i :: 0 <= i < |notes| ==> (notes + [x])[i] == notes[i];
    assert (notes + [x])[|notes|] == x;
  }

  lemma UpsertKeepsAnchor(notes: seq<Note>, n: Note, x: Note)
    requires FindAnchor(notes, x) < |notes| || SameAnchor(n, x)
    ensures FindAnchor(Upsert(notes, n), x) < |Upsert(notes, n)|
  {
    var r := Upsert(notes, n);
    var i := if FindAnchor(notes, x) < |notes| then FindAnchor(notes, x) else FindAnchor(notes, n);
    hide FindAnchor;
    assert SameAnchor(r[i], x);
  }

  lemma {:induction false} AnchorsArrive(notes: seq<Note>, incoming: seq<Note>, i: nat)
    requires i < |incoming|
    ensures FindAnchor(UpsertAll(notes, incoming), incoming[i]) < |UpsertAll(notes, incoming)|
  {
    hide FindAnchor, Upsert, SameAnchor;
    var init, last := incoming[..|incoming| - 1], incoming[|incoming| - 1];
    if i < |incoming| - 1 { AnchorsArrive(notes, init, i); } else { SameAnchorItself(last); }
    UpsertKeepsAnchor(UpsertAll(notes, init), last, incoming[i]);
  }

  lemma SameAnchorItself(n: Note)
    ensures SameAnchor(n, n)
  {
  }

  /** Superseding `n` in a batch before merging it is superseding `n` in the merged result. */
  lemma {:induction false} UpsertThrough(notes: seq<Note>, batch: seq<Note>, n: Note)
    requires OneAnchorEach(batch)
    ensures UpsertAll(notes, Upsert(batch, n)) == Upsert(UpsertAll(notes, batch), n)
    decreases |batch|, 1
  {
    var k := FindAnchor(batch, n);
    if k == |batch| {
      assert (batch + [n])[..|batch|] == batch;
    } else {
      var init, last := batch[..|batch| - 1], batch[|batch| - 1];
      if k == |batch| - 1 {
        assert batch[k := n][..k] == init;
        UpsertTwice(UpsertAll(notes, init), last, n);
      } else {
        UpsertThroughEarlier(notes, batch, n, k);
      }
    }
  }

  lemma OtherAnchor(batch: seq<Note>, n: Note, k: nat)
    requires OneAnchorEach(batch) && k < |batch| - 1 && SameAnchor(batch[k], n)
    ensures !SameAnchor(n, batch[|batch| - 1])
  {
    assert !SameAnchor(batch[k], batch[|batch| - 1]);
  }

  lemma {:induction false} UpsertThroughEarlier(notes: seq<Note>, batch: seq<Note>, n: Note, k: nat)
    requires OneAnchorEach(batch) && k == FindAnchor(batch, n) && k < |batch| - 1
    ensures UpsertAll(notes, Upsert(batch, n)) == Upsert(UpsertAll(notes, batch), n)
    decreases |batch|, 0
  {
    var init, last := batch[..|batch| - 1], batch[|batch| - 1];
    FindIsThe(init, n, k);
    UpsertThrough(notes, init, n);
    AnchorsArrive(notes, init, k);
    SameSearch(UpsertAll(notes, init), init[k], n);
    OtherAnchor(batch, n, k);
    hide FindAnchor, OneAnchorEach;
    assert Upsert(batch, n) == batch[k := n] && Upsert(init, n) == init[k := n];
    UpdatedInit(batch, k, n);
    hide Upsert, SameAnchor;
    UpsertCommutes(UpsertAll(notes, init), n, last);
  }

  function Stamps(path: string, notes: seq<Note>): (r: seq<Note>)
    ensures |r| == |notes| && forall i :: 0 <= i < |r| ==> r[i] == Stamp(path, notes[i])
  {
    seq(|notes|, i requires 0 <= i < |notes| => Stamp(path, notes[i]))
  }

  lemma {:induction false} StampNotesAreUpserts(path: string, held: seq<Note>, notes: seq<Note>)
    ensures StampNotes(path, held, notes) == UpsertAll(held, Stamps(path, notes))
  {
    hide Upsert, Stamp;
    if |notes| > 0 {
      StampNotesAreUpserts(path, held, notes[..|notes| - 1]);
      assert Stamps(path, notes)[..|notes| - 1] == Stamps(path, notes[..|notes| - 1]);
    }
  }

  lemma UpsertKeepsOne(notes: seq<Note>, n: Note)
    requires OneAnchorEach(notes)
    ensures OneAnchorEach(Upsert(notes, n))
  {
    var k := FindAnchor(notes, n);
    var r := Upsert(notes, n);
    hide FindAnchor;
    assert forall i :: 0 <= i < |r| ==> r[i] == (if i == k then n else notes[i]);
    assert k < |notes| ==> forall i :: 0 <= i < |notes| && i != k ==> !SameAnchor(notes[i], notes[k]);
  }

  lemma {:induction false} UpsertAllKeepsOne(notes: seq<Note>, incoming: seq<Note>)
    requires OneAnchorEach(notes)
    ensures OneAnchorEach(UpsertAll(notes, incoming))
  {
    hide Upsert, OneAnchorEach;
    if |incoming| > 0 {
      UpsertAllKeepsOne(notes, incoming[..|incoming| - 1]);
      UpsertKeepsOne(UpsertAll(notes, incoming[..|incoming| - 1]), incoming[|incoming| - 1]);
    }
  }

  lemma {:induction false} UpsertAllThrough(notes: seq<Note>, batch: seq<Note>, more: seq<Note>)
    requires OneAnchorEach(batch)
    ensures UpsertAll(notes, UpsertAll(batch, more)) == UpsertAll(UpsertAll(notes, batch), more)
  {
    hide Upsert, OneAnchorEach;
    if |more| > 0 {
      var init := more[..|more| - 1];
      UpsertAllThrough(notes, batch, init);
      UpsertAllKeepsOne(batch, init);
      UpsertThrough(notes, UpsertAll(batch, init), more[|more| - 1]);
    }
  }

  // ----- The same for whole files -----

  /** What stamping `f` makes of the entry it goes to. */
  function Stamped(entry: FileNotes, f: FileNotes): FileNotes {
    FileNotes(f.path, Summarised(f.summary, entry.summary), UpsertAll(entry.notes, Stamps(f.path, f.notes)))
  }

  function Merge(entry: FileNotes, f: FileNotes): FileNotes {
    FileNotes(f.path, Summarised(f.summary, entry.summary), UpsertAll(entry.notes, f.notes))
  }

  function Empty(path: string): FileNotes {
    FileNotes(path, None, [])
  }

  lemma StampFileNew(files: seq<FileNotes>, f: FileNotes)
    requires FindPath(files, f.path) == |files|
    ensures StampFile(files, f) == files + [Stamped(Empty(f.path), f)]
  {
    StampNotesAreUpserts(f.path, [], f.notes);
    hide StampNotes, UpsertAll, Stamps, FindPath;
    var x := Stamped(Empty(f.path), f);
    assert (files + [Empty(f.path)])[|files|] == Empty(f.path);
    assert (files + [Empty(f.path)])[|files| := x] == files + [x];
  }

  lemma StampFileExisting(files: seq<FileNotes>, f: FileNotes, k: nat)
    requires k == FindPath(files, f.path) < |files|
    ensures StampFile(files, f) == files[k := Stamped(files[k], f)]
  {
    StampNotesAreUpserts(f.path, files[k].notes, f.notes);
    hide StampNotes, UpsertAll, Stamps, FindPath;
  }

  lemma StampFileIs(files: seq<FileNotes>, f: FileNotes)
    ensures var k := FindPath(files, f.path);
            StampFile(files, f) == if k == |files| then files + [Stamped(Empty(f.path), f)] else files[k := Stamped(files[k], f)]
  {
    var k := FindPath(files, f.path);
    if k == |files| { StampFileNew(files, f); } else { StampFileExisting(files, f, k); }
  }

  /** Stamping after merging an entry is merging the stamped entry. */
  lemma MergeStamped(entry: FileNotes, g: FileNotes, f: FileNotes)
    requires OneAnchorEach(g.notes) && g.path == f.path
    ensures Merge(entry, Stamped(g, f)) == Stamped(Merge(entry, g), f)
  {
    UpsertAllThrough(entry.notes, g.notes, Stamps(f.path, f.notes));
    hide UpsertAll, Stamps;
  }

  lemma MergeEmpty(entry: FileNotes)
    ensures Merge(entry, Empty(entry.path)) == entry
  {
  }

  lemma FindPathUpdated(files: seq<FileNotes>, x: FileNotes, k: nat, path: string)
    requires k < |files| && files[k].path == x.path
    ensures FindPath(files[k := x], path) == FindPath(files, path)
  {
    var a, b := FindPath(files[k := x], path), FindPath(files, path);
    assert a < |files| ==> files[a].path == path;
    assert b < |files| ==> files[k := x][b].path == path;
    hide FindPath;
  }

  lemma FindPathAppended(files: seq<FileNotes>, x: FileNotes, path: string)
    ensures FindPath(files + [x], path) ==
              if FindPath(files, path) < |files| then FindPath(files, path)
              else if x.path == path then |files| else |files| + 1
  {
    var a, b := FindPath(files + [x], path), FindPath(files, path);
    assert forall i :: 0 <= i < |files| ==> (files + [x])[i] == files[i];
    assert (files + [x])[|files|] == x;
    hide FindPath;
  }

  lemma FoldIs(files: seq<FileNotes>, g: FileNotes)
    ensures var k := FindPath(files, g.path);
            Fold(files, g) == if k == |files| then files + [g] else files[k := Merge(files[k], g)]
  {
    hide FindPath, UpsertAll;
  }

  /** Folding a file and then stamping into it is folding the stamped file. */
  lemma FoldStamped(files: seq<FileNotes>, g: FileNotes, f: FileNotes)
    requires OneAnchorEach(g.notes) && g.path == f.path
    ensures Fold(files, Stamped(g, f)) == StampFile(Fold(files, g), f)
  {
    var k := FindPath(files, g.path);
    FoldIs(files, g);
    FoldIs(files, Stamped(g, f));
    StampFileIs(Fold(files, g), f);
    if k == |files| {
      FindPathAppended(files, g, f.path);
    } else {
      FindPathUpdated(files, Merge(files[k], g), k, f.path);
      MergeStamped(files[k], g, f);
    }
    hide FindPath, Fold, StampFile, OneAnchorEach, UpsertAll, Stamps;
  }

  lemma FoldNew(files: seq<FileNotes>, f: FileNotes)
    ensures Fold(files, Stamped(Empty(f.path), f)) == StampFile(files, f)
  {
    var k := FindPath(files, f.path);
    FoldIs(files, Stamped(Empty(f.path), f));
    StampFileIs(files, f);
    if k < |files| {
      MergeStamped(files[k], Empty(f.path), f);
      MergeEmpty(files[k]);
    }
    hide FindPath, Fold, StampFile, UpsertAll, Stamps;
  }

  lemma UpdatesCommute<T>(s: seq<T>, k: nat, x: T, p: nat, y: T)
    requires k < |s| && p < |s| && k != p
    ensures s[k := x][p := y] == s[p := y][k := x] && s[k := x][p] == s[p] && s[p := y][k] == s[k]
  {
  }

  lemma UpdateAppended<T>(s: seq<T>, k: nat, x: T, y: T)
    requires k < |s|
    ensures s[k := x] + [y] == (s + [y])[k := x] && (s + [y])[k] == s[k] && |s[k := x]| == |s|
  {
  }

  /** Where a path stands, without what the search says about every other index. */
  ghost predicate At(files: seq<FileNotes>, path: string, k: nat) {
    FindPath(files, path) == k
  }

  lemma StampAt(files: seq<FileNotes>, f: FileNotes, k: nat)
    requires At(files, f.path, k) && k < |files|
    ensures StampFile(files, f) == files[k := Stamped(files[k], f)]
    ensures forall path, p: nat :: At(files, path, p) ==> At(files[k := Stamped(files[k], f)], path, p)
  {
    StampFileIs(files, f);
    forall path, p: nat | At(files, path, p)
      ensures At(files[k := Stamped(files[k], f)], path, p)
    {
      FindPathUpdated(files, Stamped(files[k], f), k, path);
    }
    hide FindPath, StampFile, Stamped;
  }

  lemma FoldAt(files: seq<FileNotes>, g: FileNotes, p: nat)
    requires At(files, g.path, p)
    ensures p < |files| ==> Fold(files, g) == files[p := Merge(files[p], g)]
                            && forall path, k: nat :: At(files, path, k) ==> At(files[p := Merge(files[p], g)], path, k)
    ensures p == |files| ==> Fold(files, g) == files + [g]
                             && forall path, k: nat :: At(files, path, k) && k < |files| ==> At(files + [g], path, k)
  {
    FoldIs(files, g);
    forall path, k: nat | At(files, path, k)
      ensures p < |files| ==> At(files[p := Merge(files[p], g)], path, k)
      ensures p == |files| && k < |files| ==> At(files + [g], path, k)
    {
      if p < |files| { FindPathUpdated(files, Merge(files[p], g), p, path); } else { FindPathAppended(files, g, path); }
    }
    hide FindPath, Fold, Merge;
  }

  lemma FoldCommutesNew(files: seq<FileNotes>, f: FileNotes, g: FileNotes, k: nat)
    requires At(files, f.path, k) && At(files, g.path, |files|) && k < |files|
    ensures Fold(StampFile(files, f), g) == StampFile(Fold(files, g), f)
  {
    hide At, Fold, StampFile, Stamped;
    var x := Stamped(files[k], f);
    StampAt(files, f, k);
    FoldAt(files, g, |files|);
    UpdateAppended(files, k, x, g);
    FoldAt(files[k := x], g, |files|);
    StampAt(files + [g], f, k);
  }

  lemma FoldCommutesBoth(files: seq<FileNotes>, f: FileNotes, g: FileNotes, k: nat, p: nat)
    requires At(files, f.path, k) && At(files, g.path, p) && k < |files| && p < |files| && k != p
    ensures Fold(StampFile(files, f), g) == StampFile(Fold(files, g), f)
  {
    hide At, Fold, StampFile, Stamped, Merge;
    var x, y := Stamped(files[k], f), Merge(files[p], g);
    StampAt(files, f, k);
    FoldAt(files, g, p);
    UpdatesCommute(files, k, x, p, y);
    FoldAt(files[k := x], g, p);
    StampAt(files[p := y], f, k);
  }

  /** Files at different paths do not get in each other's way, once the earlier one has an entry. */
  lemma FoldCommutes(files: seq<FileNotes>, f: FileNotes, g: FileNotes)
    requires f.path != g.path && FindPath(files, f.path) < |files|
    ensures Fold(StampFile(files, f), g) == StampFile(Fold(files, g), f)
  {
    var k, p := FindPath(files, f.path), FindPath(files, g.path);
    assert At(files, f.path, k) && At(files, g.path, p) && k != p;
    hide FindPath, At;
    if p == |files| { FoldCommutesNew(files, f, g, k); } else { FoldCommutesBoth(files, f, g, k, p); }
  }

  ghost predicate OneAnchorFiles(files: seq<FileNotes>) {
    DistinctPaths(files) && forall f :: f in files ==> OneAnchorEach(f.notes)
  }

  lemma FoldKeepsPath(files: seq<FileNotes>, g: FileNotes, path: string)
    requires FindPath(files, path) < |files| || g.path == path
    ensures FindPath(Fold(files, g), path) < |Fold(files, g)|
  {
    var k := FindPath(files, g.path);
    FoldIs(files, g);
    if k == |files| { FindPathAppended(files, g, path); } else { FindPathUpdated(files, Merge(files[k], g), k, path); }
    hide FindPath, Fold, Merge;
  }

  lemma {:induction false} PathsArrive(files: seq<FileNotes>, incoming: seq<FileNotes>, i: nat)
    requires i < |incoming|
    ensures FindPath(FoldAll(files, incoming), incoming[i].path) < |FoldAll(files, incoming)|
  {
    hide FindPath, Fold;
    var init, last := incoming[..|incoming| - 1], incoming[|incoming| - 1];
    if i < |incoming| - 1 { PathsArrive(files, init, i); }
    FoldKeepsPath(FoldAll(files, init), last, incoming[i].path);
  }

  /** Stamping a file into a batch before merging it is stamping it into the merged result. */
  lemma {:induction false} StampThrough(files: seq<FileNotes>, batch: seq<FileNotes>, f: FileNotes)
    requires OneAnchorFiles(batch)
    ensures FoldAll(files, StampFile(batch, f)) == StampFile(FoldAll(files, batch), f)
    decreases |batch|, 1
  {
    var k := FindPath(batch, f.path);
    StampFileIs(batch, f);
    if k == |batch| {
      hide FindPath, Fold, StampFile, OneAnchorFiles;
      assert (batch + [Stamped(Empty(f.path), f)])[..|batch|] == batch;
      FoldNew(FoldAll(files, batch), f);
    } else {
      var init, last := batch[..|batch| - 1], batch[|batch| - 1];
      if k == |batch| - 1 {
        assert last in batch;
        hide FindPath, Fold, StampFile;
        assert batch[k := Stamped(last, f)][..k] == init;
        FoldStamped(FoldAll(files, init), last, f);
      } else {
        StampThroughEarlier(files, batch, f, k);
      }
    }
  }

  lemma {:induction false} StampThroughEarlier(files: seq<FileNotes>, batch: seq<FileNotes>, f: FileNotes, k: nat)
    requires OneAnchorFiles(batch) && k == FindPath(batch, f.path) < |batch| - 1
    ensures FoldAll(files, StampFile(batch, f)) == StampFile(FoldAll(files, batch), f)
    decreases |batch|, 0
  {
    var init, last := batch[..|batch| - 1], batch[|batch| - 1];
    assert OneAnchorFiles(init) && batch[k].path != last.path;
    FindPathInit(batch, f.path, k);
    assert At(batch, f.path, k) && At(init, f.path, k);
    PathsArrive(files, init, k);
    assert batch[k].path == f.path;
    hide FindPath, Fold, StampFile, OneAnchorFiles, Stamped, At;
    StampAt(batch, f, k);
    StampAt(init, f, k);
    StampThrough(files, init, f);
    UpdatedInit(batch, k, Stamped(batch[k], f));
    FoldCommutes(FoldAll(files, init), f, last);
  }

  lemma UpdatedInit<T>(s: seq<T>, k: nat, x: T)
    requires k < |s| - 1
    ensures s[k := x][..|s| - 1] == s[..|s| - 1][k := x] && s[k := x][|s| - 1] == s[|s| - 1] && s[..|s| - 1][k] == s[k]
  {
  }

  lemma FindPathInit(files: seq<FileNotes>, path: string, k: nat)
    requires k == FindPath(files, path) < |files| - 1
    ensures FindPath(files[..|files| - 1], path) == k
  {
    var p := FindPath(files[..|files| - 1], path);
    assert files[..|files| - 1][k] == files[k];
  }

  lemma StampKeepsOneAnchor(files: seq<FileNotes>, f: FileNotes)
    requires OneAnchorFiles(files)
    ensures OneAnchorFiles(StampFile(files, f))
  {
    var k := FindPath(files, f.path);
    StampFileIs(files, f);
    UpsertAllKeepsOne(if k < |files| then files[k].notes else [], Stamps(f.path, f.notes));
    if k < |files| { assert files[k] in files; }
    hide FindPath, StampFile, UpsertAll, Stamps, OneAnchorEach;
  }

  lemma {:induction false} AddKeepsOneAnchor(files: seq<FileNotes>, batch: seq<FileNotes>)
    requires OneAnchorFiles(files)
    ensures OneAnchorFiles(AddFiles(files, batch))
  {
    hide StampFile, OneAnchorFiles;
    if |batch| > 0 {
      AddKeepsOneAnchor(files, batch[..|batch| - 1]);
      StampKeepsOneAnchor(AddFiles(files, batch[..|batch| - 1]), batch[|batch| - 1]);
    }
  }

  lemma {:induction false} AddThrough(files: seq<FileNotes>, batch: seq<FileNotes>)
    ensures FoldAll(files, AddFiles([], batch)) == AddFiles(files, batch)
  {
    hide StampFile, Fold;
    if |batch| > 0 {
      var init, last := batch[..|batch| - 1], batch[|batch| - 1];
      AddThrough(files, init);
      AddKeepsOneAnchor([], init);
      StampThrough(files, AddFiles([], init), last);
    }
  }

  lemma {:induction false} AddConcat(files: seq<FileNotes>, a: seq<FileNotes>, b: seq<FileNotes>)
    ensures AddFiles(files, a + b) == AddFiles(AddFiles(files, a), b)
  {
    hide StampFile;
    if |b| == 0 {
      assert a + b == a;
    } else {
      AddConcat(files, a, b[..|b| - 1]);
      assert (a + b)[..|a + b| - 1] == a + b[..|b| - 1];
    }
  }
}
