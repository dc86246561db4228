/** What merging a batch makes of a stored sidecar, for any paths and texts: what it records and what it
    drops, when it adds up with the batch, and when merging the batch again finds nothing new. */
module SidecarMerge {
  import opened Prelude
  import opened Text
  import opened Annotations
  import opened Sidecar
  import opened SidecarStore
  import opened SidecarLaws
  import opened SidecarShape

  // ----- One entry -----

  /** The annotations that are recorded; the others are dropped, their ids being present. */
  function Recorded(m: Merging, path: string, incoming: seq<Note>): seq<Note>
    requires AllStamped(incoming)
  {
    if |incoming| == 0 then []
    else
      var init, last := incoming[..|incoming| - 1], incoming[|incoming| - 1];
      Recorded(m, path, init) + (if last.id.value in MergeNotes(m, path, init).present then [] else [last])
  }

  /** Whatever is dropped is already stored, up to an empty rationale. */
  ghost predicate LosesNone(m: Merging, path: string, incoming: seq<Note>)
    requires AllStamped(incoming)
  {
    forall n :: n in incoming && n !in Recorded(m, path, incoming) ==> Plain(n) in PlainNotes(m.notes)
  }

  /** The id is that of an annotation recorded, or of a stored one that none recorded supersedes. */
  ghost predicate StaysPresent(held: seq<Note>, recorded: seq<Note>, id: Option<Digest>) {
    || (exists x :: x in recorded && x.id == id)
    || (exists x :: x in held && x.id == id && forall y :: y in recorded ==> !SameAnchor(x, y))
  }

  /** The id of whatever is dropped stays present. */
  ghost predicate ForgetsNone(m: Merging, path: string, incoming: seq<Note>)
    requires AllStamped(incoming)
  {
    forall n :: n in incoming && n !in Recorded(m, path, incoming)
      ==> StaysPresent(m.notes, Recorded(m, path, incoming), n.id)
  }

  lemma {:induction false} MergedIsUpserted(m: Merging, path: string, incoming: seq<Note>)
    requires AllStamped(incoming)
    ensures MergeNotes(m, path, incoming).notes == UpsertAll(m.notes, Recorded(m, path, incoming))
    ensures AllStamped(Recorded(m, path, incoming))
  {
    if |incoming| > 0 {
      var init, last := incoming[..|incoming| - 1], incoming[|incoming| - 1];
      MergedIsUpserted(m, path, init);
      var rec := Recorded(m, path, init);
      assert (rec + [last])[..|rec|] == rec && rec + [] == rec;
      MergeNoteIs(MergeNotes(m, path, init), path, last);
      hide FindAnchor, Upsert, MergeNote;
    }
  }

  lemma MergeNoteIs(m: Merging, path: string, n: Note)
    requires n.id.Some?
    ensures MergeNote(m, path, n).notes == if n.id.value in m.present then m.notes else Upsert(m.notes, n)
    ensures MergeNote(m, path, n).recorded == m.recorded + if n.id.value in m.present then [] else [MentionOf(path, n)]
  {
    hide FindAnchor;
  }

  lemma MentionsGrow(path: string, notes: seq<Note>, n: Note)
    requires AllStamped(notes) && n.id.Some?
    ensures AllStamped(notes + [n]) && Mentions(path, notes + [n]) == Mentions(path, notes) + [MentionOf(path, n)]
  {
    assert (notes + [n])[..|notes|] == notes;
  }

  /** What a merge reports, in order. */
  lemma {:induction false} RecordedIsReported(m: Merging, path: string, incoming: seq<Note>)
    requires AllStamped(incoming)
    ensures AllStamped(Recorded(m, path, incoming))
    ensures MergeNotes(m, path, incoming).recorded == m.recorded + Mentions(path, Recorded(m, path, incoming))
  {
    if |incoming| == 0 {
      assert m.recorded + [] == m.recorded;
    } else {
      var init, last := incoming[..|incoming| - 1], incoming[|incoming| - 1];
      RecordedIsReported(m, path, init);
      var rec := Recorded(m, path, init);
      MentionsGrow(path, rec, last);
      MergeNoteIs(MergeNotes(m, path, init), path, last);
      hide FindAnchor, MergeNote, Mentions, MentionOf, AllStamped;
      Regroup(m.recorded, Mentions(path, rec), [MentionOf(path, last)]);
      assert rec + [] == rec && MergeNotes(m, path, init).recorded + [] == MergeNotes(m, path, init).recorded;
    }
  }

  /** What was recorded so far does not matter. */
  lemma {:induction false} SameSteps(m: Merging, n: Merging, path: string, incoming: seq<Note>)
    requires AllStamped(incoming) && m.notes == n.notes && m.present == n.present
    ensures MergeNotes(m, path, incoming).notes == MergeNotes(n, path, incoming).notes
    ensures MergeNotes(m, path, incoming).present == MergeNotes(n, path, incoming).present
    ensures Recorded(m, path, incoming) == Recorded(n, path, incoming)
  {
    hide FindAnchor;
    if |incoming| > 0 { SameSteps(m, n, path, incoming[..|incoming| - 1]); }
  }

  lemma {:induction false} RecordedAreIncoming(m: Merging, path: string, incoming: seq<Note>)
    requires AllStamped(incoming) && OneAnchorEach(incoming)
    ensures forall n :: n in Recorded(m, path, incoming) ==> n in incoming
    ensures OneAnchorEach(Recorded(m, path, incoming))
  {
    if |incoming| > 0 {
      var init, last := incoming[..|incoming| - 1], incoming[|incoming| - 1];
      RecordedAreIncoming(m, path, init);
      hide MergeNotes, SameAnchor;
      assert forall n :: n in init ==> !SameAnchor(n, last) && n in incoming;
    }
  }

  lemma UpsertHas(notes: seq<Note>, n: Note)
    requires OneAnchorEach(notes)
    ensures forall x :: x in Upsert(notes, n) <==> x == n || (x in notes && !SameAnchor(x, n))
  {
    var k, r := FindAnchor(notes, n), Upsert(notes, n);
    assert k < |notes| ==> forall i :: 0 <= i < |notes| && i != k ==> !SameAnchor(notes[i], notes[k]);
    hide FindAnchor;
    assert r[k] == n;
    forall x | x in notes && !SameAnchor(x, n)
      ensures x in r
    {
      var i :| 0 <= i < |notes| && notes[i] == x;
      assert r[i] == x;
    }
    forall x | x in r
      ensures x == n || (x in notes && !SameAnchor(x, n))
    {
      var i :| 0 <= i < |r| && r[i] == x;
      if i != k { assert x == notes[i]; }
    }
  }

  /** Superseding leaves what was given, and what was there and is not superseded. */
  lemma {:induction false} UpsertAllHas(notes: seq<Note>, incoming: seq<Note>)
    requires OneAnchorEach(notes) && OneAnchorEach(incoming)
    ensures forall x :: x in UpsertAll(notes, incoming) <==>
              x in incoming || (x in notes && forall y :: y in incoming ==> !SameAnchor(x, y))
  {
    if |incoming| > 0 {
      var init, last := incoming[..|incoming| - 1], incoming[|incoming| - 1];
      UpsertAllHas(notes, init);
      UpsertAllKeepsOne(notes, init);
      UpsertHas(UpsertAll(notes, init), last);
      assert forall n :: n in init ==> !SameAnchor(n, last);
      assert incoming == init + [last];
      assert forall y :: y in incoming <==> y in init || y == last;
      hide Upsert, SameAnchor, OneAnchorEach;
    }
  }

  lemma UpsertSame(notes: seq<Note>, n: Note)
    requires OneAnchorEach(notes) && n in notes
    ensures Upsert(notes, n) == notes
  {
    var j :| 0 <= j < |notes| && notes[j] == n;
    FindIsThe(notes, n, j);
  }

  lemma PlainOneAnchor(notes: seq<Note>)
    ensures OneAnchorEach(PlainNotes(notes)) <==> OneAnchorEach(notes)
  {
    assert forall i, j :: 0 <= i < j < |notes| ==>
      (SameAnchor(PlainNotes(notes)[i], PlainNotes(notes)[j]) <==> SameAnchor(notes[i], notes[j]));
    hide SameAnchor, Plain;
  }

  lemma PlainIn(notes: seq<Note>, n: Note)
    requires n in notes
    ensures Plain(n) in PlainNotes(notes)
  {
    var i :| 0 <= i < |notes| && notes[i] == n;
    assert PlainNotes(notes)[i] == Plain(n);
  }

  /** One annotation adds up with an entry exactly when it is recorded or already there. */
  lemma MergeNoteIsUpsert(m: Merging, path: string, n: Note)
    requires n.id.Some? && OneAnchorEach(m.notes)
    ensures PlainNotes(MergeNote(m, path, n).notes) == Upsert(PlainNotes(m.notes), Plain(n))
            <==> (n.id.value in m.present ==> Plain(n) in PlainNotes(m.notes))
  {
    PlainUpsert(m.notes, n);
    PlainOneAnchor(m.notes);
    UpsertHas(PlainNotes(m.notes), Plain(n));
    if Plain(n) in PlainNotes(m.notes) { UpsertSame(PlainNotes(m.notes), Plain(n)); }
    hide FindAnchor, PlainNotes, Plain;
  }

  /** An entry and a batch add up exactly when nothing is lost. */
  lemma MergeAddsUp(m: Merging, path: string, incoming: seq<Note>)
    requires AllStamped(incoming) && OneAnchorEach(m.notes) && OneAnchorEach(incoming)
    ensures PlainNotes(MergeNotes(m, path, incoming).notes) == UpsertAll(PlainNotes(m.notes), PlainNotes(incoming))
            <==> LosesNone(m, path, incoming)
  {
    if LosesNone(m, path, incoming) {
      NoneLostAddsUp(m, path, incoming);
    }
    if PlainNotes(MergeNotes(m, path, incoming).notes) == UpsertAll(PlainNotes(m.notes), PlainNotes(incoming)) {
      forall n | n in incoming && n !in Recorded(m, path, incoming)
        ensures Plain(n) in PlainNotes(m.notes)
      {
        DroppedIsHeld(m, path, incoming, n);
      }
    }
  }

  lemma DroppedIsHeld(m: Merging, path: string, incoming: seq<Note>, n: Note)
    requires AllStamped(incoming) && OneAnchorEach(m.notes) && OneAnchorEach(incoming)
    requires PlainNotes(MergeNotes(m, path, incoming).notes) == UpsertAll(PlainNotes(m.notes), PlainNotes(incoming))
    requires n in incoming && n !in Recorded(m, path, incoming)
    ensures Plain(n) in PlainNotes(m.notes)
  {
    var rec, r := Recorded(m, path, incoming), MergeNotes(m, path, incoming).notes;
    MergedIsUpserted(m, path, incoming);
    RecordedAreIncoming(m, path, incoming);
    PlainOneAnchor(m.notes);
    PlainOneAnchor(incoming);
    UpsertAllHas(PlainNotes(m.notes), PlainNotes(incoming));
    UpsertAllHas(m.notes, rec);
    PlainIn(incoming, n);
    hide UpsertAll, MergeNotes, Recorded;
    assert Plain(n) in PlainNotes(r);
    var i :| 0 <= i < |r| && PlainNotes(r)[i] == Plain(n);
    assert r[i] in r && SameAnchor(r[i], n);
    if r[i] in rec {
      OneOfAnchor(incoming, r[i], n);
    } else {
      PlainIn(m.notes, r[i]);
    }
  }

  lemma OneOfAnchor(notes: seq<Note>, x: Note, y: Note)
    requires OneAnchorEach(notes) && x in notes && y in notes && SameAnchor(x, y)
    ensures x == y
  {
    var i :| 0 <= i < |notes| && notes[i] == x;
    var j :| 0 <= j < |notes| && notes[j] == y;
    assert i == j;
  }

  lemma LosesNoneInit(m: Merging, path: string, incoming: seq<Note>)
    requires |incoming| > 0 && AllStamped(incoming) && OneAnchorEach(incoming) && LosesNone(m, path, incoming)
    ensures LosesNone(m, path, incoming[..|incoming| - 1])
  {
    var init, last := incoming[..|incoming| - 1], incoming[|incoming| - 1];
    hide MergeNotes, Plain;
    forall n | n in init && n !in Recorded(m, path, init)
      ensures Plain(n) in PlainNotes(m.notes)
    {
      assert n in incoming && !SameAnchor(n, last) && n != last;
    }
  }

  lemma {:induction false} NoneLostAddsUp(m: Merging, path: string, incoming: seq<Note>)
    requires AllStamped(incoming) && OneAnchorEach(m.notes) && OneAnchorEach(incoming) && LosesNone(m, path, incoming)
    ensures PlainNotes(MergeNotes(m, path, incoming).notes) == UpsertAll(PlainNotes(m.notes), PlainNotes(incoming))
  {
    if |incoming| > 0 {
      var init, last := incoming[..|incoming| - 1], incoming[|incoming| - 1];
      LosesNoneInit(m, path, incoming);
      NoneLostAddsUp(m, path, init);
      LastAddsUp(m, path, incoming);
      assert PlainNotes(incoming)[..|incoming| - 1] == PlainNotes(init);
      hide Upsert, MergeNote, PlainNotes, LosesNone;
    }
  }

  lemma LastAddsUp(m: Merging, path: string, incoming: seq<Note>)
    requires |incoming| > 0 && AllStamped(incoming) && OneAnchorEach(m.notes) && OneAnchorEach(incoming)
    requires LosesNone(m, path, incoming)
    requires var init := incoming[..|incoming| - 1];
             PlainNotes(MergeNotes(m, path, init).notes) == UpsertAll(PlainNotes(m.notes), PlainNotes(init))
    ensures var init, last := incoming[..|incoming| - 1], incoming[|incoming| - 1];
            PlainNotes(MergeNotes(m, path, incoming).notes)
            == Upsert(PlainNotes(MergeNotes(m, path, init).notes), Plain(last))
  {
    var init, last := incoming[..|incoming| - 1], incoming[|incoming| - 1];
    var earlier := MergeNotes(m, path, init);
    MergedIsUpserted(m, path, init);
    RecordedAreIncoming(m, path, init);
    UpsertAllKeepsOne(m.notes, Recorded(m, path, init));
    MergeNoteIsUpsert(earlier, path, last);
    if last.id.value in earlier.present {
      PlainOneAnchor(m.notes);
      PlainOneAnchor(init);
      UpsertAllHas(PlainNotes(m.notes), PlainNotes(init));
      LastIsDropped(m, path, incoming);
      forall y | y in PlainNotes(init)
        ensures !SameAnchor(Plain(last), y)
      {
        var i :| 0 <= i < |init| && PlainNotes(init)[i] == y;
        assert !SameAnchor(incoming[i], last);
      }
      hide UpsertAll, PlainNotes;
    }
  }

  lemma LastIsDropped(m: Merging, path: string, incoming: seq<Note>)
    requires |incoming| > 0 && AllStamped(incoming) && OneAnchorEach(incoming) && LosesNone(m, path, incoming)
    requires incoming[|incoming| - 1].id.value in MergeNotes(m, path, incoming[..|incoming| - 1]).present
    ensures Plain(incoming[|incoming| - 1]) in PlainNotes(m.notes)
  {
    var init, last := incoming[..|incoming| - 1], incoming[|incoming| - 1];
    RecordedAreIncoming(m, path, init);
    hide MergeNotes;
    assert Recorded(m, path, incoming) == Recorded(m, path, init);
    assert last in incoming && last !in init;
  }

  /** The ids of a merged entry, as the next merge sees them. */
  lemma MergedIds(m: Merging, path: string, incoming: seq<Note>)
    requires AllStamped(incoming) && AllStamped(m.notes) && OneAnchorEach(m.notes) && OneAnchorEach(incoming)
    ensures (forall n :: n in incoming ==> n.id.value in PresentIds(path, MergeNotes(m, path, incoming).notes))
            <==> ForgetsNone(m, path, incoming)
  {
    var rec, r := Recorded(m, path, incoming), MergeNotes(m, path, incoming).notes;
    MergedIsUpserted(m, path, incoming);
    RecordedAreIncoming(m, path, incoming);
    UpsertAllHas(m.notes, rec);
    hide UpsertAll, MergeNotes, Recorded, NoteId, SameAnchor;
    assert forall x :: x in r ==> x.id.Some?;
    forall n | n in incoming
      ensures n.id.value in PresentIds(path, r) <==> (exists x :: x in r && x.id == n.id)
    {
    }
    forall n | n in incoming
      ensures (exists x :: x in r && x.id == n.id) <==> StaysPresent(m.notes, rec, n.id)
      ensures n in rec ==> StaysPresent(m.notes, rec, n.id)
    {
    }
  }

  /** What is stored already is not forgotten. */
  lemma LostIsForgotten(m: Merging, path: string, incoming: seq<Note>)
    requires AllStamped(incoming) && OneAnchorEach(incoming) && LosesNone(m, path, incoming)
    ensures ForgetsNone(m, path, incoming)
  {
    var rec := Recorded(m, path, incoming);
    RecordedAreIncoming(m, path, incoming);
    hide Recorded;
    forall n | n in incoming && n !in rec
      ensures StaysPresent(m.notes, rec, n.id)
    {
      var j :| 0 <= j < |m.notes| && PlainNotes(m.notes)[j] == Plain(n);
      var x := m.notes[j];
      assert x in m.notes && x.id == n.id && SameAnchor(x, n);
      forall y | y in rec
        ensures !SameAnchor(x, y)
      {
        if SameAnchor(x, y) { OneOfAnchor(incoming, y, n); }
      }
    }
  }

  // ----- All entries -----

  /** The entry of a path, as a merge with annotations for that path starts from it. */
  function StartOf(files: seq<FileNotes>, path: string): Merging
    requires FindPath(files, path) < |files|
  {
    var held := files[FindPath(files, path)].notes;
    Merging(held, PresentIds(path, held), [])
  }

  /** In every entry whatever is dropped is already stored. */
  ghost predicate Lossless(files: seq<FileNotes>, incoming: seq<FileNotes>)
    requires FilesStamped(incoming)
  {
    forall f :: f in incoming && FindPath(files, f.path) < |files| ==> LosesNone(StartOf(files, f.path), f.path, f.notes)
  }

  /** In every entry the id of whatever is dropped stays present. */
  ghost predicate Repeatable(files: seq<FileNotes>, incoming: seq<FileNotes>)
    requires FilesStamped(incoming)
  {
    forall f :: f in incoming && FindPath(files, f.path) < |files| ==> ForgetsNone(StartOf(files, f.path), f.path, f.notes)
  }

  lemma LosslessIsRepeatable(files: seq<FileNotes>, incoming: seq<FileNotes>)
    requires FilesStamped(incoming) && Sound(incoming) && Lossless(files, incoming)
    ensures Repeatable(files, incoming)
  {
    hide FindPath, SoundNotes, LosesNone, ForgetsNone;
    forall f | f in incoming && FindPath(files, f.path) < |files|
      ensures ForgetsNone(StartOf(files, f.path), f.path, f.notes)
    {
      assert SoundFile(f);
      OneAnchors(f.path, f.notes);
      LostIsForgotten(StartOf(files, f.path), f.path, f.notes);
    }
  }

  lemma OneAnchors(path: string, notes: seq<Note>)
    requires SoundNotes(path, notes)
    ensures OneAnchorEach(notes) && AllStamped(notes)
  {
    hide NoteId;
  }

  /** What is done at other paths leaves the entry of this one where and as it was, or absent. */
  ghost predicate StaysPut(before: seq<FileNotes>, after: seq<FileNotes>, path: string) {
    var k := FindPath(before, path);
    FindPath(after, path) == (if k < |before| then k else |after|)
    && (k < |before| ==> k < |after| && after[k] == before[k])
  }

  lemma OthersStayPut(files: seq<FileNotes>, f: FileNotes, path: string)
    requires f.path != path
    ensures var k := FindPath(files, f.path); StaysPut(files, if k < |files| then files[k := f] else files + [f], path)
  {
    var k := FindPath(files, f.path);
    if k < |files| { FindPathUpdated(files, f, k, path); } else { FindPathAppended(files, f, path); }
    hide FindPath;
  }

  lemma {:induction false} Untouched(m: Merged, incoming: seq<FileNotes>, path: string)
    requires FilesStamped(incoming) && forall f :: f in incoming ==> f.path != path
    ensures StaysPut(m.files, MergeFiles(m, incoming).files, path)
  {
    if |incoming| > 0 {
      var init, f := incoming[..|incoming| - 1], incoming[|incoming| - 1];
      assert f in incoming;
      Untouched(m, init, path);
      var earlier := MergeFiles(m, init).files;
      MergeFileIs(MergeFiles(m, init), f);
      hide FindPath, MergeFile, MergeFiles;
      OthersStayPut(earlier, if FindPath(earlier, f.path) < |earlier| then MergedEntry(earlier, f) else f, path);
    }
  }

  lemma {:induction false} UntouchedFold(files: seq<FileNotes>, incoming: seq<FileNotes>, path: string)
    requires forall f :: f in incoming ==> f.path != path
    ensures StaysPut(files, FoldAll(files, incoming), path)
  {
    if |incoming| > 0 {
      var init, f := incoming[..|incoming| - 1], incoming[|incoming| - 1];
      assert f in incoming;
      UntouchedFold(files, init, path);
      var earlier := FoldAll(files, init);
      var k := FindPath(earlier, f.path);
      FoldIs(earlier, f);
      hide FindPath, Fold;
      OthersStayPut(earlier, if k < |earlier| then Merge(earlier[k], f) else f, path);
    }
  }

  /** The entry a merge changes, and how. */
  function MergedEntry(files: seq<FileNotes>, f: FileNotes): FileNotes
    requires AllStamped(f.notes) && FindPath(files, f.path) < |files|
  {
    FileNotes(f.path, Summarised(f.summary, files[FindPath(files, f.path)].summary),
              MergeNotes(StartOf(files, f.path), f.path, f.notes).notes)
  }

  lemma MergeFileIs(m: Merged, f: FileNotes)
    requires AllStamped(f.notes)
    ensures var k := FindPath(m.files, f.path);
            MergeFile(m, f).files == if k < |m.files| then m.files[k := MergedEntry(m.files, f)] else m.files + [f]
  {
    var k := FindPath(m.files, f.path);
    if k < |m.files| {
      var held := m.files[k].notes;
      SameSteps(Merging(held, PresentIds(f.path, held), m.recorded), StartOf(m.files, f.path), f.path, f.notes);
      hide FindPath, MergeNotes, PresentIds;
    }
  }

  lemma EntryAddsUp(files: seq<FileNotes>, f: FileNotes)
    requires AllStamped(f.notes) && FindPath(files, f.path) < |files|
    requires OneAnchorEach(files[FindPath(files, f.path)].notes) && OneAnchorEach(f.notes)
    ensures PlainFile(MergedEntry(files, f)) == Merge(PlainFile(files[FindPath(files, f.path)]), PlainFile(f))
            <==> LosesNone(StartOf(files, f.path), f.path, f.notes)
  {
    hide FindPath, MergeNotes, PresentIds, LosesNone, UpsertAll;
    MergeAddsUp(StartOf(files, f.path), f.path, f.notes);
  }

  lemma SoundEntry(files: seq<FileNotes>, path: string)
    requires Sound(files) && FindPath(files, path) < |files|
    ensures OneAnchorEach(files[FindPath(files, path)].notes) && AllStamped(files[FindPath(files, path)].notes)
  {
    var k := FindPath(files, path);
    hide FindPath;
    assert SoundFile(files[k]);
    OneAnchors(files[k].path, files[k].notes);
  }

  lemma SoundInit(incoming: seq<FileNotes>)
    requires Sound(incoming) && |incoming| > 0
    ensures var init, f := incoming[..|incoming| - 1], incoming[|incoming| - 1];
            Sound(init) && FilesStamped(init) && AllStamped(f.notes) && OneAnchorEach(f.notes)
            && forall g :: g in init ==> g.path != f.path
  {
    hide SoundNotes;
    var init, f := incoming[..|incoming| - 1], incoming[|incoming| - 1];
    assert f in incoming && forall g :: g in init ==> g in incoming;
    forall g | g in incoming
      ensures AllStamped(g.notes) && OneAnchorEach(g.notes)
    {
      assert SoundFile(g);
      OneAnchors(g.path, g.notes);
    }
  }

  lemma LosslessLast(files: seq<FileNotes>, incoming: seq<FileNotes>)
    requires FilesStamped(incoming) && |incoming| > 0
    ensures var init, f := incoming[..|incoming| - 1], incoming[|incoming| - 1];
            Lossless(files, incoming) <==>
              Lossless(files, init)
              && (FindPath(files, f.path) < |files| ==> LosesNone(StartOf(files, f.path), f.path, f.notes))
  {
    hide FindPath, LosesNone, StartOf, AllStamped;
    var init, f := incoming[..|incoming| - 1], incoming[|incoming| - 1];
    assert f in incoming && forall g :: g in incoming <==> g in init || g == f;
  }

  ghost predicate SamePlaces(a: seq<FileNotes>, b: seq<FileNotes>) {
    |a| == |b| && forall i :: 0 <= i < |a| ==> a[i].path == b[i].path
  }

  lemma {:induction false} PlacesFound(a: seq<FileNotes>, b: seq<FileNotes>, path: string)
    requires SamePlaces(a, b)
    ensures FindPath(a, path) == FindPath(b, path)
  {
    if |a| > 0 { PlacesFound(a[1..], b[1..], path); }
  }

  /** Changing equal entries at one place, or appending at the end. */
  lemma OneChange(a: seq<FileNotes>, b: seq<FileNotes>, k: nat, x: FileNotes, y: FileNotes)
    requires SamePlaces(a, b) && x.path == y.path && k <= |a|
    requires k < |a| ==> a[k] == b[k] && a[k].path == x.path
    ensures k < |a| ==> SamePlaces(a[k := x], b[k := y]) && (a[k := x] == b[k := y] <==> a == b && x == y)
    ensures SamePlaces(a + [x], b + [y]) && (a + [x] == b + [y] <==> a == b && x == y)
  {
    if a + [x] == b + [y] {
      assert (a + [x])[..|a|] == a && (b + [y])[..|a|] == b;
      assert (a + [x])[|a|] == x && (b + [y])[|a|] == y;
    }
    if k < |a| && a[k := x] == b[k := y] {
      assert a[k := x][k] == x && b[k := y][k] == y;
      assert forall i :: 0 <= i < |a| && i != k ==> a[i] == a[k := x][i] && b[i] == b[k := y][i];
      assert a == b;
    }
  }

  /** A merge adds up, entry by entry, exactly when nothing is lost in any of them. */
  lemma {:induction false} MergeFilesAddUp(files: seq<FileNotes>, incoming: seq<FileNotes>)
    requires Sound(files) && Sound(incoming) && FilesStamped(incoming)
    ensures var merged, folded := PlainFiles(MergeFiles(Merged(files, []), incoming).files),
                                  FoldAll(PlainFiles(files), PlainFiles(incoming));
            SamePlaces(merged, folded) && (merged == folded <==> Lossless(files, incoming))
  {
    if |incoming| > 0 {
      SoundInit(incoming);
      MergeFilesAddUp(files, incoming[..|incoming| - 1]);
      LosslessLast(files, incoming);
      LastFileAddsUp(files, incoming);
    }
  }

  lemma PlainElsewhere(files: seq<FileNotes>, path: string)
    requires forall f :: f in files ==> f.path != path
    ensures forall f :: f in PlainFiles(files) ==> f.path != path
  {
  }

  lemma LastFileAddsUp(files: seq<FileNotes>, incoming: seq<FileNotes>)
    requires Sound(files) && Sound(incoming) && FilesStamped(incoming) && |incoming| > 0
    requires var init := incoming[..|incoming| - 1];
             SamePlaces(PlainFiles(MergeFiles(Merged(files, []), init).files), FoldAll(PlainFiles(files), PlainFiles(init)))
    ensures var init, f := incoming[..|incoming| - 1], incoming[|incoming| - 1];
            var before, sum := PlainFiles(MergeFiles(Merged(files, []), init).files), FoldAll(PlainFiles(files), PlainFiles(init));
            var merged, folded := PlainFiles(MergeFiles(Merged(files, []), incoming).files),
                                  FoldAll(PlainFiles(files), PlainFiles(incoming));
            && SamePlaces(merged, folded)
            && (merged == folded <==>
                  before == sum && (FindPath(files, f.path) < |files| ==> LosesNone(StartOf(files, f.path), f.path, f.notes)))
  {
    var init, f := incoming[..|incoming| - 1], incoming[|incoming| - 1];
    var m, sum := MergeFiles(Merged(files, []), init), FoldAll(PlainFiles(files), PlainFiles(init));
    SoundInit(incoming);
    assert PlainFiles(incoming)[..|incoming| - 1] == PlainFiles(init);
    assert PlainFiles(incoming)[|incoming| - 1] == PlainFile(f);
    PlainElsewhere(init, f.path);
    hide FindPath, Fold, Sound, LosesNone, StartOf, MergedEntry, MergeFile, PlainFile, SamePlaces, StaysPut, AllStamped;
    Untouched(Merged(files, []), init, f.path);
    UntouchedFold(PlainFiles(files), PlainFiles(init), f.path);
    hide PlainFiles;
    OneFileAddsUp(files, m, sum, f);
  }

  lemma EntryAppended(files: seq<FileNotes>, sum: seq<FileNotes>, f: FileNotes)
    requires SamePlaces(PlainFiles(files), sum)
    ensures SamePlaces(PlainFiles(files + [f]), sum + [PlainFile(f)])
    ensures PlainFiles(files + [f]) == sum + [PlainFile(f)] <==> PlainFiles(files) == sum
  {
    OneChange(PlainFiles(files), sum, |files|, PlainFile(f), PlainFile(f));
    hide PlainFile, SamePlaces;
    assert PlainFiles(files + [f]) == PlainFiles(files) + [PlainFile(f)];
  }

  lemma OneFileAddsUp(files: seq<FileNotes>, m: Merged, sum: seq<FileNotes>, f: FileNotes)
    requires Sound(files) && AllStamped(f.notes) && OneAnchorEach(f.notes)
    requires StaysPut(files, m.files, f.path) && StaysPut(PlainFiles(files), sum, f.path)
    requires SamePlaces(PlainFiles(m.files), sum)
    ensures var merged, folded := PlainFiles(MergeFile(m, f).files), Fold(sum, PlainFile(f));
            && SamePlaces(merged, folded)
            && (merged == folded <==>
                  PlainFiles(m.files) == sum
                  && (FindPath(files, f.path) < |files| ==> LosesNone(StartOf(files, f.path), f.path, f.notes)))
  {
    var k := FindPath(files, f.path);
    MergeFileIs(m, f);
    PlainPath(files, f.path);
    PlainPath(m.files, f.path);
    PlacesFound(PlainFiles(m.files), sum, f.path);
    FoldIs(sum, PlainFile(f));
    hide FindPath, Fold, Sound, LosesNone, StartOf, MergedEntry, MergeFile, SamePlaces;
    if k < |files| {
      SoundEntry(files, f.path);
      EntryAddsUp(files, f);
      SameEntry(files, m.files, f, k);
      hide PlainFile;
      EntryChanges(m.files, sum, f, k, MergedEntry(files, f), Merge(PlainFile(files[k]), PlainFile(f)));
    } else {
      EntryAppended(m.files, sum, f);
    }
  }

  lemma SameEntry(files: seq<FileNotes>, later: seq<FileNotes>, f: FileNotes, k: nat)
    requires AllStamped(f.notes) && k == FindPath(files, f.path) == FindPath(later, f.path) && k < |files| && k < |later|
    requires later[k] == files[k]
    ensures MergedEntry(later, f) == MergedEntry(files, f)
  {
    hide FindPath, MergeNotes, PresentIds;
  }

  lemma EntryChanges(files: seq<FileNotes>, sum: seq<FileNotes>, f: FileNotes, k: nat, x: FileNotes, y: FileNotes)
    requires SamePlaces(PlainFiles(files), sum) && k < |files| && PlainFiles(files)[k] == sum[k]
    requires files[k].path == x.path == y.path == f.path
    ensures SamePlaces(PlainFiles(files[k := x]), sum[k := y])
    ensures PlainFiles(files[k := x]) == sum[k := y] <==> PlainFiles(files) == sum && PlainFile(x) == y
  {
    OneChange(PlainFiles(files), sum, k, PlainFile(x), y);
    assert PlainFiles(files[k := x]) == PlainFiles(files)[k := PlainFile(x)];
  }

  // ----- Merging a batch again -----

  /** Every id of the file is present in the entry of its path. */
  ghost predicate Known(files: seq<FileNotes>, f: FileNotes) {
    var k := FindPath(files, f.path);
    k < |files| && forall n :: n in f.notes && n.id.Some? ==> n.id.value in PresentIds(f.path, files[k].notes)
  }

  ghost predicate SameNotes(a: seq<FileNotes>, b: seq<FileNotes>) {
    |a| == |b| && forall i :: 0 <= i < |a| ==> a[i].path == b[i].path && a[i].notes == b[i].notes
  }

  lemma EntryKept(files: seq<FileNotes>, incoming: seq<FileNotes>, i: nat)
    requires FilesStamped(incoming) && DistinctPaths(incoming) && i < |incoming| - 1
    ensures StaysPut(MergeFiles(Merged(files, []), incoming[..|incoming| - 1]).files,
                     MergeFiles(Merged(files, []), incoming).files, incoming[i].path)
  {
    var last, f := incoming[|incoming| - 1], incoming[i];
    var earlier := MergeFiles(Merged(files, []), incoming[..|incoming| - 1]);
    MergeFileIs(earlier, last);
    hide FindPath, MergedEntry, MergeFile, StaysPut, AllStamped;
    OthersStayPut(earlier.files, if FindPath(earlier.files, last.path) < |earlier.files| then MergedEntry(earlier.files, last) else last,
                  f.path);
  }

  lemma EntryLast(files: seq<FileNotes>, incoming: seq<FileNotes>)
    requires FilesStamped(incoming) && DistinctPaths(incoming) && |incoming| > 0
    ensures var f, r := incoming[|incoming| - 1], MergeFiles(Merged(files, []), incoming).files;
            var k := FindPath(r, f.path);
            && k < |r|
            && r[k].notes == if FindPath(files, f.path) < |files| then MergedEntry(files, f).notes else f.notes
  {
    var init, f := incoming[..|incoming| - 1], incoming[|incoming| - 1];
    var earlier := MergeFiles(Merged(files, []), init);
    MergeFileIs(earlier, f);
    Untouched(Merged(files, []), init, f.path);
    var p := FindPath(earlier.files, f.path);
    if p < |earlier.files| {
      SameEntry(files, earlier.files, f, p);
      FindPathUpdated(earlier.files, MergedEntry(earlier.files, f), p, f.path);
    } else {
      FindPathAppended(earlier.files, f, f.path);
    }
    hide FindPath, MergedEntry, MergeFile, AllStamped;
  }

  lemma EntryAfter(files: seq<FileNotes>, incoming: seq<FileNotes>, i: nat)
    requires FilesStamped(incoming) && DistinctPaths(incoming) && i < |incoming|
    ensures var f, r := incoming[i], MergeFiles(Merged(files, []), incoming).files;
            var k := FindPath(r, f.path);
            && k < |r|
            && r[k].notes == if FindPath(files, f.path) < |files| then MergedEntry(files, f).notes else f.notes
  {
    if i < |incoming| - 1 {
      EntryAfter(files, incoming[..|incoming| - 1], i);
      EntryKept(files, incoming, i);
    } else {
      EntryLast(files, incoming);
    }
  }

  lemma KnownAfter(files: seq<FileNotes>, incoming: seq<FileNotes>, f: FileNotes)
    requires Sound(files) && Sound(incoming) && FilesStamped(incoming) && f in incoming
    ensures Known(MergeFiles(Merged(files, []), incoming).files, f)
            <==> (FindPath(files, f.path) < |files| ==> ForgetsNone(StartOf(files, f.path), f.path, f.notes))
  {
    var i :| 0 <= i < |incoming| && incoming[i] == f;
    EntryAfter(files, incoming, i);
    assert SoundFile(f);
    OneAnchors(f.path, f.notes);
    if FindPath(files, f.path) < |files| {
      SoundEntry(files, f.path);
      MergedIds(StartOf(files, f.path), f.path, f.notes);
    }
    hide FindPath, MergeNotes, MergeFiles, Sound, SoundNotes, ForgetsNone, NoteId;
  }

  lemma {:induction false} NothingRecorded(m: Merging, path: string, incoming: seq<Note>)
    requires AllStamped(incoming)
    ensures Recorded(m, path, incoming) == [] <==> forall n :: n in incoming ==> n.id.value in m.present
    ensures Recorded(m, path, incoming) == [] ==> MergeNotes(m, path, incoming) == m
  {
    if |incoming| > 0 {
      var init, last := incoming[..|incoming| - 1], incoming[|incoming| - 1];
      NothingRecorded(m, path, init);
      assert last in incoming && forall n :: n in incoming <==> n in init || n == last;
      hide FindAnchor;
    }
  }

  lemma {:induction false} NothingMentioned(path: string, notes: seq<Note>)
    requires AllStamped(notes)
    ensures Mentions(path, notes) == [] <==> notes == []
  {
  }

  lemma FileAgain(m: Merged, before: seq<FileNotes>, f: FileNotes)
    requires SameNotes(m.files, before) && AllStamped(f.notes) && FindPath(before, f.path) < |before| && m.recorded == []
    ensures MergeFile(m, f).recorded == [] <==> Known(before, f)
    ensures MergeFile(m, f).recorded == [] ==> SameNotes(MergeFile(m, f).files, before)
  {
    PlacesFound(m.files, before, f.path);
    var k := FindPath(before, f.path);
    var held := m.files[k].notes;
    var start := Merging(held, PresentIds(f.path, held), m.recorded);
    NothingRecorded(start, f.path, f.notes);
    RecordedIsReported(start, f.path, f.notes);
    NothingMentioned(f.path, Recorded(start, f.path, f.notes));
    hide FindPath, MergeNotes, Recorded, Mentions, PresentIds;
  }

  lemma {:induction false} RecordedGrows(m: Merged, f: FileNotes)
    requires AllStamped(f.notes)
    ensures m.recorded <= MergeFile(m, f).recorded
  {
    var k := FindPath(m.files, f.path);
    if k < |m.files| {
      var held := m.files[k].notes;
      RecordedIsReported(Merging(held, PresentIds(f.path, held), m.recorded), f.path, f.notes);
      hide FindPath, MergeNotes, PresentIds;
    }
  }

  /** Merging into entries that exist records nothing, and changes none, exactly when all ids are known. */
  lemma {:induction false} NothingNew(before: seq<FileNotes>, incoming: seq<FileNotes>)
    requires FilesStamped(incoming) && forall f :: f in incoming ==> FindPath(before, f.path) < |before|
    ensures var m := MergeFiles(Merged(before, []), incoming);
            && (m.recorded == [] <==> forall f :: f in incoming ==> Known(before, f))
            && (m.recorded == [] ==> SameNotes(m.files, before))
  {
    if |incoming| > 0 {
      var init, last := incoming[..|incoming| - 1], incoming[|incoming| - 1];
      assert last in incoming && forall f :: f in incoming <==> f in init || f == last;
      NothingNew(before, init);
      RecordedGrows(MergeFiles(Merged(before, []), init), last);
      hide Known, MergeFile, FindPath, AllStamped, SameNotes;
      if MergeFiles(Merged(before, []), init).recorded == [] {
        FileAgain(MergeFiles(Merged(before, []), init), before, last);
      }
    }
  }

  /** Merging the same batch again records nothing exactly when the first time forgot no id it dropped. */
  lemma MergeAgain(files: seq<FileNotes>, incoming: seq<FileNotes>)
    requires Sound(files) && Sound(incoming) && FilesStamped(incoming)
    ensures var once := MergeFiles(Merged(files, []), incoming).files;
            var twice := MergeFiles(Merged(once, []), incoming);
            && (twice.recorded == [] <==> Repeatable(files, incoming))
            && (twice.recorded == [] ==> SameNotes(twice.files, once))
  {
    var once := MergeFiles(Merged(files, []), incoming).files;
    forall f | f in incoming
      ensures FindPath(once, f.path) < |once|
      ensures Known(once, f)
              <==> (FindPath(files, f.path) < |files| ==> ForgetsNone(StartOf(files, f.path), f.path, f.notes))
    {
      var i :| 0 <= i < |incoming| && incoming[i] == f;
      EntryAfter(files, incoming, i);
      KnownAfter(files, incoming, f);
    }
    hide FindPath, Known, ForgetsNone, StartOf, MergeFiles, Sound, AllStamped, SameNotes;
    NothingNew(once, incoming);
  }

  // ----- One-line summaries -----

  ghost predicate OneLineNotes(notes: seq<Note>) {
    forall n :: n in notes ==> OneLineNote(n)
  }

  ghost predicate OneLineFiles(files: seq<FileNotes>) {
    forall f :: f in files ==> OneLineNotes(f.notes)
  }

  ghost predicate PresentCarried(m: Merging) {
    forall id :: id in m.present ==> exists x :: x in m.notes && x.id == Some(id)
  }

  lemma PresentStaysCarried(m: Merging, path: string, n: Note)
    requires n.id.Some? && PresentCarried(m)
    ensures PresentCarried(MergeNote(m, path, n))
  {
    var r, k := MergeNote(m, path, n), FindAnchor(m.notes, n);
    hide FindAnchor;
    if n.id.value !in m.present {
      assert r.notes[k] == n && n in r.notes;
      forall id | id in r.present && id != n.id.value
        ensures exists x :: x in r.notes && x.id == Some(id)
      {
        var x :| x in m.notes && x.id == Some(id);
        var i :| 0 <= i < |m.notes| && m.notes[i] == x;
        assert i != k && r.notes[i] == x;
      }
    }
  }

  lemma {:induction false} PresentIsCarried(m: Merging, path: string, incoming: seq<Note>)
    requires AllStamped(incoming) && PresentCarried(m)
    ensures PresentCarried(MergeNotes(m, path, incoming))
  {
    if |incoming| > 0 {
      hide PresentCarried, MergeNote;
      PresentIsCarried(m, path, incoming[..|incoming| - 1]);
      PresentStaysCarried(MergeNotes(m, path, incoming[..|incoming| - 1]), path, incoming[|incoming| - 1]);
    }
  }

  lemma {:induction false} DroppedWasPresent(m: Merging, path: string, incoming: seq<Note>, i: nat)
    requires AllStamped(incoming) && i < |incoming| && incoming[i] !in Recorded(m, path, incoming)
    ensures incoming[i].id.value in MergeNotes(m, path, incoming[..i]).present
  {
    var init := incoming[..|incoming| - 1];
    hide MergeNotes;
    if i < |incoming| - 1 {
      DroppedWasPresent(m, path, init, i);
      assert init[..i] == incoming[..i];
    }
  }

  /** One-line summaries are told apart, so that what is dropped is stored. */
  lemma OneLineLosesNone(m: Merging, path: string, incoming: seq<Note>)
    requires SoundNotes(path, m.notes) && SoundNotes(path, incoming) && AllStamped(incoming) && PresentCarried(m)
    requires OneLineNotes(m.notes) && OneLineNotes(incoming)
    ensures LosesNone(m, path, incoming)
  {
    hide NoteId, OneLineNote, MergeNotes, Recorded;
    forall n | n in incoming && n !in Recorded(m, path, incoming)
      ensures Plain(n) in PlainNotes(m.notes)
    {
      var i :| 0 <= i < |incoming| && incoming[i] == n;
      var x := CarrierOf(m, path, incoming, i);
      NoteIdsMeanContent(path, x, path, n);
      assert forall y :: y in incoming[..i] ==> !SameAnchor(y, n);
      PlainIn(m.notes, x);
    }
  }

  /** An annotation that carries the id of a dropped one at its turn. */
  lemma CarrierOf(m: Merging, path: string, incoming: seq<Note>, i: nat) returns (x: Note)
    requires AllStamped(incoming) && PresentCarried(m) && OneAnchorEach(m.notes) && OneAnchorEach(incoming)
    requires i < |incoming| && incoming[i] !in Recorded(m, path, incoming)
    ensures x.id == incoming[i].id && (x in m.notes || x in incoming[..i])
  {
    var init := incoming[..i];
    DroppedWasPresent(m, path, incoming, i);
    PresentIsCarried(m, path, init);
    MergedIsUpserted(m, path, init);
    assert OneAnchorEach(init);
    RecordedAreIncoming(m, path, init);
    UpsertAllHas(m.notes, Recorded(m, path, init));
    hide MergeNotes, Recorded, UpsertAll;
    x :| x in MergeNotes(m, path, init).notes && x.id == incoming[i].id;
  }

  lemma OneLineIsLossless(files: seq<FileNotes>, incoming: seq<FileNotes>)
    requires Sound(files) && Sound(incoming) && FilesStamped(incoming) && OneLineFiles(files) && OneLineFiles(incoming)
    ensures Lossless(files, incoming)
  {
    forall f | f in incoming && FindPath(files, f.path) < |files|
      ensures LosesNone(StartOf(files, f.path), f.path, f.notes)
    {
      var held := files[FindPath(files, f.path)];
      assert SoundFile(held) && SoundFile(f) && held in files;
      hide FindPath, NoteId, LosesNone, OneLineNote;
      assert PresentCarried(StartOf(files, f.path));
      OneLineLosesNone(StartOf(files, f.path), f.path, f.notes);
    }
  }

  // ----- Writing -----

  /** Written into these files, every annotation of the batch is recorded or stored already. */
  ghost predicate WritesAll(files: seq<FileNotes>, batch: seq<FileNotes>) {
    FilesAreStamped(batch);
    Lossless(files, StampFiles(batch))
  }

  /** Written into these files, every id of the batch is present afterwards. */
  ghost predicate KeepsIds(files: seq<FileNotes>, batch: seq<FileNotes>) {
    FilesAreStamped(batch);
    Repeatable(files, StampFiles(batch))
  }

  lemma KeptIsSound(stored: Option<Stored>, base: string)
    requires stored.Some? ==> Sound(stored.value.files)
    ensures Sound(Kept(stored, base))
  {
    hide Readable, SoundFile;
  }

  /** Up to an empty rationale, a write adds its batch to what is kept, entry by entry, exactly when every
      annotation it drops is stored already. */
  lemma WriteAddsBatch(stored: Option<Stored>, base: string, batch: seq<FileNotes>)
    requires stored.Some? ==> Sound(stored.value.files)
    ensures PlainFiles(WriteFiles(stored, base, batch).files) == AddFiles(PlainFiles(Kept(stored, base)), PlainFiles(batch))
            <==> WritesAll(Kept(stored, base), batch)
  {
    FilesAreStamped(batch);
    StampedIsSound(batch);
    KeptIsSound(stored, base);
    StampFilesAreAdded(batch);
    PlainAddFiles([], batch);
    hide Kept, StampFiles, MergeFiles, AddFiles, Sound, FoldAll, Lossless;
    MergeFilesAddUp(Kept(stored, base), StampFiles(batch));
    assert PlainFiles([]) == [];
    AddThrough(PlainFiles(Kept(stored, base)), PlainFiles(batch));
  }
}
