/** What a written batch leaves stored under a path, told from the batch and from what was stored: which annotations,
    and which summary of the file. */
module SidecarOutcomes {
  import opened Prelude
  import opened Annotations
  import opened Sidecar
  import opened SidecarLaws
  import opened SidecarShape
  import opened SidecarMerge

  /** The annotations stored under a path. */
  function NotesAt(files: seq<FileNotes>, path: string): seq<Note> {
    if FindPath(files, path) < |files| then files[FindPath(files, path)].notes else []
  }

  function SummaryAt(files: seq<FileNotes>, path: string): Option<string> {
    if FindPath(files, path) < |files| then files[FindPath(files, path)].summary else None
  }

  /** The annotations a batch has for a path, in its order. */
  function Given(batch: seq<FileNotes>, path: string): seq<Note> {
    if |batch| == 0 then []
    else Given(batch[..|batch| - 1], path) + (if batch[|batch| - 1].path == path then batch[|batch| - 1].notes else [])
  }

  /** On the same lines, in the same words. */
  predicate SamePlace(a: Note, b: Note) {
    a.range.start == b.range.start && a.range.end == b.range.end && a.summary == b.summary
  }

  ghost predicate Superseded(given: seq<Note>, x: Note) {
    exists k :: 0 <= k < |given| && SamePlace(given[k], x)
  }

  /** `x` is the last annotation given for its place, under its computed id. */
  ghost predicate LastGiven(path: string, given: seq<Note>, x: Note) {
    exists j :: && 0 <= j < |given| && x == given[j].(id := Some(NoteId(path, given[j])))
                && forall k :: j < k < |given| ==> !SamePlace(given[k], given[j])
  }

  // ----- One path -----

  lemma GivenMore(path: string, given: seq<Note>, n: Note, x: Note)
    ensures Superseded(given + [n], x) <==> Superseded(given, x) || SamePlace(n, x)
    ensures LastGiven(path, given + [n], x) <==>
              x == n.(id := Some(NoteId(path, n))) || (LastGiven(path, given, x) && !SamePlace(n, x))
  {
    var more := given + [n];
    assert more[|given|] == n && forall k :: 0 <= k < |given| ==> more[k] == given[k];
    hide NoteId, SamePlace;
    if Superseded(given, x) {
      var k :| 0 <= k < |given| && SamePlace(given[k], x);
      assert SamePlace(more[k], x);
    }
    LastGivenMore(path, given, n, x);
  }

  lemma LastGivenMore(path: string, given: seq<Note>, n: Note, x: Note)
    ensures LastGiven(path, given + [n], x) <==>
              x == n.(id := Some(NoteId(path, n))) || (LastGiven(path, given, x) && !SamePlace(n, x))
  {
    var more := given + [n];
    hide NoteId;
    assert more[|given|] == n && forall k :: 0 <= k < |given| ==> more[k] == given[k];
    if LastGiven(path, given, x) && !SamePlace(n, x) {
      var j :| && 0 <= j < |given| && x == given[j].(id := Some(NoteId(path, given[j])))
               && forall k :: j < k < |given| ==> !SamePlace(given[k], given[j]);
      assert more[j] == given[j];
    }
  }

  lemma SamePlaceIs(a: Note, b: Note)
    ensures SamePlace(a, b) <==> SameAnchor(a, b)
    ensures SamePlace(a, b) <==> SamePlace(b, a)
  {
  }

  /** Stamping annotations into a list leaves those given last for their place, and of the old ones those whose
      place was not given. */
  lemma {:induction false} StampedHas(path: string, held: seq<Note>, given: seq<Note>)
    requires OneAnchorEach(held)
    ensures OneAnchorEach(StampNotes(path, held, given))
    ensures forall x :: x in StampNotes(path, held, given) <==> LastGiven(path, given, x) || (x in held && !Superseded(given, x))
  {
    if |given| > 0 {
      var init, n := given[..|given| - 1], given[|given| - 1];
      StampedHas(path, held, init);
      var before, stamped := StampNotes(path, held, init), Stamp(path, n);
      UpsertHas(before, stamped);
      UpsertKeepsOne(before, stamped);
      assert given == init + [n];
      assert stamped == n.(id := Some(NoteId(path, n)));
      hide OneAnchorEach, Upsert, SameAnchor, LastGiven, Superseded, NoteId, SamePlace;
      forall x
        ensures x in StampNotes(path, held, given) <==> LastGiven(path, given, x) || (x in held && !Superseded(given, x))
      {
        GivenMore(path, init, n, x);
        PlaceOfStamp(x, n, stamped);
      }
    }
  }

  lemma PlaceOfStamp(x: Note, n: Note, stamped: Note)
    requires stamped == n.(id := stamped.id)
    ensures SamePlace(n, x) <==> SameAnchor(x, stamped)
  {
  }

  lemma UpsertKeepsOne(notes: seq<Note>, n: Note)
    requires OneAnchorEach(notes)
    ensures OneAnchorEach(Upsert(notes, n))
  {
    UpsertAllKeepsOne(notes, [n]);
    assert [n][..0] == [] && UpsertAll(notes, []) == notes;
  }

  // ----- A whole batch -----

  lemma EntryStamped(files: seq<FileNotes>, f: FileNotes, path: string)
    ensures var r := StampFile(files, f);
            if path == f.path then
              && NotesAt(r, path) == StampNotes(path, NotesAt(files, path), f.notes)
              && SummaryAt(r, path) == (if f.summary.Some? then f.summary else SummaryAt(files, path))
            else NotesAt(r, path) == NotesAt(files, path) && SummaryAt(r, path) == SummaryAt(files, path)
  {
    var k := FindPath(files, f.path);
    var entry := WithEntry(files, f.path)[k];
    var x := FileNotes(f.path, Summarised(f.summary, entry.summary), StampNotes(f.path, entry.notes, f.notes));
    if k < |files| {
      FindPathUpdated(files, x, k, path);
    } else {
      assert (files + [FileNotes(f.path, None, [])])[|files| := x] == files + [x];
      FindPathAppended(files, x, path);
    }
    hide StampNotes, FindPath;
  }

  lemma {:induction false} StampConcat(path: string, held: seq<Note>, a: seq<Note>, b: seq<Note>)
    ensures StampNotes(path, held, a + b) == StampNotes(path, StampNotes(path, held, a), b)
  {
    hide Upsert, Stamp;
    if |b| == 0 {
      assert a + b == a;
    } else {
      StampConcat(path, held, a, b[..|b| - 1]);
      assert (a + b)[..|a + b| - 1] == a + b[..|b| - 1];
    }
  }

  /** Under each path a batch is one list of annotations. */
  lemma {:induction false} BatchStamped(files: seq<FileNotes>, batch: seq<FileNotes>, path: string)
    ensures NotesAt(AddFiles(files, batch), path) == StampNotes(path, NotesAt(files, path), Given(batch, path))
  {
    if |batch| > 0 {
      var init, f := batch[..|batch| - 1], batch[|batch| - 1];
      BatchStamped(files, init, path);
      EntryStamped(AddFiles(files, init), f, path);
      hide StampFile, NotesAt, StampNotes;
      StampConcat(path, NotesAt(files, path), Given(init, path), f.notes);
      assert Given(init, path) + [] == Given(init, path);
    } else {
      hide NotesAt;
    }
  }

  /** The summary given last for a path is the one that stays. */
  ghost predicate LastSummary(batch: seq<FileNotes>, path: string, i: nat) {
    && i < |batch| && batch[i].path == path && batch[i].summary.Some?
    && forall j :: i < j < |batch| ==> batch[j].path != path || batch[j].summary.None?
  }

  lemma {:induction false} SummaryAdded(files: seq<FileNotes>, batch: seq<FileNotes>, path: string, i: nat)
    requires i <= |batch| && (i == |batch| || LastSummary(batch, path, i))
    requires i == |batch| ==> forall j :: 0 <= j < |batch| ==> batch[j].path != path || batch[j].summary.None?
    ensures SummaryAt(AddFiles(files, batch), path) == if i < |batch| then batch[i].summary else SummaryAt(files, path)
  {
    if |batch| > 0 {
      var init, f := batch[..|batch| - 1], batch[|batch| - 1];
      EntryStamped(AddFiles(files, init), f, path);
      hide StampFile, SummaryAt;
      if i < |init| {
        assert LastSummary(init, path, i);
        SummaryAdded(files, init, path, i);
      } else if i == |batch| {
        SummaryAdded(files, init, path, |init|);
      }
    }
  }

  // ----- A write -----

  lemma EntriesAreOne(files: seq<FileNotes>, path: string)
    requires Sound(files)
    ensures OneAnchorEach(NotesAt(PlainFiles(files), path))
  {
    var k := FindPath(PlainFiles(files), path);
    if k < |files| {
      assert SoundFile(files[k]);
      OneAnchors(files[k].path, files[k].notes);
      PlainOneAnchor(files[k].notes);
    }
  }

  /** Where a write is recorded in full, the sidecar then has under every path, up to empty rationales, the annotations
      given last for their lines and words, and of those stored for the same base the ones that were not given anew;
      and the summary given last for the path, or the stored one. */
  lemma WriteOutcome(stored: Option<Stored>, base: string, summary: string, batch: seq<FileNotes>, path: string, i: nat)
    requires stored.Some? ==> Sound(stored.value.files) && Readable(stored.value)
    requires WritesAll(Kept(stored, base), batch)
    requires i <= |batch| && (i == |batch| || LastSummary(PlainFiles(batch), path, i))
    requires i == |batch| ==> forall j :: 0 <= j < |batch| ==> batch[j].path != path || batch[j].summary.None?
    ensures var before := if stored.Some? && stored.value.base == base then PlainFiles(stored.value.files) else [];
            var w := Write(stored, base, summary, batch);
            && w.Some? && w.value.base == base && w.value.summary == summary
            && var after, given := PlainFiles(w.value.files), Given(PlainFiles(batch), path);
               && SummaryAt(after, path) == (if i < |batch| then batch[i].summary else SummaryAt(before, path))
               && forall x :: x in NotesAt(after, path)
                              <==> LastGiven(path, given, x) || (x in NotesAt(before, path) && !Superseded(given, x))
  {
    var kept, plain := Kept(stored, base), PlainFiles(batch);
    var before := if stored.Some? && stored.value.base == base then PlainFiles(stored.value.files) else [];
    assert PlainFiles(kept) == before;
    KeptIsSound(stored, base);
    hide Kept, WriteFiles, Sound, AddFiles, WritesAll, Readable, NotesAt, SummaryAt, Given, StampNotes;
    WriteAddsBatch(stored, base, batch);
    EntriesAreOne(kept, path);
    BatchStamped(before, plain, path);
    StampedHas(path, NotesAt(before, path), Given(plain, path));
    SummaryAdded(before, plain, path, i);
  }

  // ----- A removal -----

  predicate HasEntry(files: seq<FileNotes>, path: string) {
    FindPath(files, path) < |files|
  }

  lemma {:induction false} WithoutHas(notes: seq<Note>, key: Digest, n: Note)
    ensures n in NotesWithout(notes, key) <==> n in notes && n.id != Some(key)
  {
    if |notes| > 0 {
      WithoutHas(notes[..|notes| - 1], key, n);
      assert notes == notes[..|notes| - 1] + [notes[|notes| - 1]];
    }
  }

  lemma NewEntry(files: seq<FileNotes>, f: FileNotes, path: string)
    requires !HasEntry(files, f.path)
    ensures HasEntry(files + [f], path) <==> HasEntry(files, path) || path == f.path
    ensures NotesAt(files + [f], path) == if path == f.path then f.notes else NotesAt(files, path)
    ensures SummaryAt(files + [f], path) == if path == f.path then f.summary else SummaryAt(files, path)
  {
    FindPathAppended(files, f, path);
    hide FindPath;
  }

  /** Entries of which nothing is left go; the others keep their summary. */
  lemma {:induction false} EntriesWithout(files: seq<FileNotes>, key: Digest, path: string)
    requires Sound(files)
    ensures var r, kept := FilesWithout(files, key), NotesWithout(NotesAt(files, path), key);
            && NotesAt(r, path) == kept && (HasEntry(r, path) <==> kept != [])
            && (kept != [] ==> SummaryAt(r, path) == SummaryAt(files, path))
  {
    if |files| > 0 {
      var init, last := files[..|files| - 1], files[|files| - 1];
      var rest, cut := FilesWithout(init, key), last.(notes := NotesWithout(last.notes, key));
      LastIsApart(files);
      EntriesWithout(init, key, path);
      EntriesWithout(init, key, last.path);
      LastIsNew(init, last.path);
      assert init + [last] == files && rest + [] == rest;
      hide Sound, SoundFile, FilesWithout, FindPath, NotesWithout, NotesAt, SummaryAt, HasEntry;
      NewEntry(init, last, path);
      if cut.notes == [] {
        assert FilesWithout(files, key) == rest by { CutAway(files, key); }
      } else {
        assert FilesWithout(files, key) == rest + [cut] by { CutAway(files, key); }
        NewEntry(rest, cut, path);
      }
    }
  }

  lemma LastIsNew(init: seq<FileNotes>, path: string)
    requires forall f :: f in init ==> f.path != path
    ensures !HasEntry(init, path) && NotesAt(init, path) == []
    ensures forall key :: NotesWithout(NotesAt(init, path), key) == []
  {
  }

  lemma CutAway(files: seq<FileNotes>, key: Digest)
    requires |files| > 0
    ensures var init, last := files[..|files| - 1], files[|files| - 1];
            FilesWithout(files, key) == FilesWithout(init, key)
              + (if NotesWithout(last.notes, key) == [] then [] else [last.(notes := NotesWithout(last.notes, key))])
  {
  }

  /** A removal that succeeds takes the annotation with this key, the entry with its last annotation and the sidecar
      with its last entry; everything else is as it was. */
  lemma RemoveOutcome(stored: Option<Stored>, key: Digest, path: string, n: Note)
    requires stored.Some? && Sound(stored.value.files) && Outcome(stored, key) == Removed
    ensures var r, before := Remove(stored, key), stored.value.files;
            && (r.None? ==> forall x :: x in NotesAt(before, path) ==> x.id == Some(key))
            && (r.Some? ==>
                  var after := r.value.files;
                  && r.value.base == stored.value.base && r.value.summary == stored.value.summary && after != []
                  && (n in NotesAt(after, path) <==> n in NotesAt(before, path) && n.id != Some(key))
                  && (HasEntry(after, path) <==> NotesAt(after, path) != [])
                  && (HasEntry(after, path) ==> SummaryAt(after, path) == SummaryAt(before, path)))
  {
    var before := stored.value.files;
    EntriesWithout(before, key, path);
    WithoutHas(NotesAt(before, path), key, n);
    forall x | x in NotesAt(before, path) && FilesWithout(before, key) == []
      ensures x.id == Some(key)
    {
      WithoutHas(NotesAt(before, path), key, x);
    }
    hide FilesWithout, NotesWithout, FindPath, Sound, CountFiles, Readable;
  }
}
