/** What every sidecar has, whatever is written into it: line breaks in paths and texts change nothing of
    this, only what its keys mean. */
module SidecarShape {
  import opened Prelude
  import opened Annotations
  import opened Sidecar
  import opened SidecarStore
  import opened SidecarLaws

  /** Every id is the computed one, and no range and summary occurs twice. */
  ghost predicate SoundNotes(path: string, notes: seq<Note>) {
    (forall n :: n in notes ==> n.id == Some(NoteId(path, n))) && OneAnchorEach(notes)
  }

  ghost predicate SoundFile(f: FileNotes) {
    SoundNotes(f.path, f.notes)
  }

  ghost predicate Sound(files: seq<FileNotes>) {
    DistinctPaths(files) && forall f :: f in files ==> SoundFile(f)
  }

  // ----- One file -----

  lemma UpsertKeeps(path: string, notes: seq<Note>, n: Note)
    requires SoundNotes(path, notes) && n.id == Some(NoteId(path, n))
    ensures SoundNotes(path, Upsert(notes, n))
  {
    hide NoteId, FindAnchor;
    var r, k := Upsert(notes, n), FindAnchor(notes, n);
    assert forall i :: 0 <= i < |r| ==> r[i] == (if i == k then n else notes[i]);
    assert k < |notes| ==> forall i :: 0 <= i < |notes| && i != k ==> !SameAnchor(notes[i], notes[k]);
  }

  lemma {:induction false} StampKeeps(path: string, held: seq<Note>, notes: seq<Note>)
    requires SoundNotes(path, held)
    ensures SoundNotes(path, StampNotes(path, held, notes))
  {
    if |notes| > 0 {
      var init, last := notes[..|notes| - 1], notes[|notes| - 1];
      StampIsComputed(path, last);
      hide SoundNotes, Upsert, NoteId, Stamp;
      StampKeeps(path, held, init);
      UpsertKeeps(path, StampNotes(path, held, init), Stamp(path, last));
    }
  }

  lemma {:induction false} MergeKeeps(m: Merging, path: string, incoming: seq<Note>)
    requires SoundNotes(path, m.notes) && AllStamped(incoming)
    requires forall n :: n in incoming ==> n.id == Some(NoteId(path, n))
    ensures SoundNotes(path, MergeNotes(m, path, incoming).notes)
  {
    if |incoming| > 0 {
      var init, last := incoming[..|incoming| - 1], incoming[|incoming| - 1];
      assert last in incoming && forall n :: n in init ==> n in incoming;
      MergeKeeps(m, path, init);
      hide SoundNotes, NoteId;
      UpsertKeeps(path, MergeNotes(m, path, init).notes, last);
    }
  }

  // ----- All files -----

  lemma PutKeeps(files: seq<FileNotes>, f: FileNotes)
    requires Sound(files) && SoundFile(f)
    ensures Sound(WithEntry(files, f.path)[FindPath(files, f.path) := f])
    ensures FindPath(files, f.path) == |files| ==> Sound(files + [f])
  {
    hide SoundFile;
    var k := FindPath(files, f.path);
    hide FindPath;
    var r := WithEntry(files, f.path)[k := f];
    assert forall i :: 0 <= i < |r| ==> r[i] == (if i == k then f else files[i]);
  }

  lemma EntryIsSound(files: seq<FileNotes>, path: string)
    requires Sound(files)
    ensures var entry := WithEntry(files, path)[FindPath(files, path)];
            entry.path == path && SoundNotes(path, entry.notes)
  {
    var k := FindPath(files, path);
    hide FindPath, NoteId;
    if k < |files| { assert SoundFile(files[k]); }
  }

  lemma {:induction false} StampedIsSound(batch: seq<FileNotes>)
    ensures Sound(StampFiles(batch))
  {
    if |batch| > 0 {
      var earlier, f := StampFiles(batch[..|batch| - 1]), batch[|batch| - 1];
      StampedIsSound(batch[..|batch| - 1]);
      hide Sound, SoundNotes, StampNotes;
      EntryIsSound(earlier, f.path);
      var entry := WithEntry(earlier, f.path)[FindPath(earlier, f.path)];
      StampKeeps(f.path, entry.notes, f.notes);
      PutKeeps(earlier, FileNotes(f.path, Summarised(f.summary, entry.summary), StampNotes(f.path, entry.notes, f.notes)));
    }
  }

  lemma MergeFileKeeps(m: Merged, f: FileNotes)
    requires Sound(m.files) && SoundFile(f) && AllStamped(f.notes)
    ensures Sound(MergeFile(m, f).files)
  {
    var k := FindPath(m.files, f.path);
    PutKeeps(m.files, if k == |m.files| then f else MergeFile(m, f).files[k]) by {
      if k < |m.files| {
        var entry := m.files[k];
        assert SoundFile(entry);
        hide FindPath, NoteId, PresentIds;
        MergeKeeps(Merging(entry.notes, PresentIds(f.path, entry.notes), m.recorded), f.path, f.notes);
      }
    }
  }

  lemma {:induction false} MergeFilesKeep(m: Merged, incoming: seq<FileNotes>)
    requires Sound(m.files) && FilesStamped(incoming) && forall f :: f in incoming ==> SoundFile(f)
    ensures Sound(MergeFiles(m, incoming).files)
  {
    if |incoming| > 0 {
      var init, last := incoming[..|incoming| - 1], incoming[|incoming| - 1];
      assert last in incoming && forall f :: f in init ==> f in incoming;
      hide Sound, SoundFile, MergeFile;
      MergeFilesKeep(m, init);
      MergeFileKeeps(MergeFiles(m, init), last);
    }
  }

  lemma {:induction false} NotesWithoutKeep(path: string, notes: seq<Note>, key: Digest)
    requires SoundNotes(path, notes)
    ensures SoundNotes(path, NotesWithout(notes, key))
    ensures forall n :: n in NotesWithout(notes, key) ==> n in notes
  {
    hide NoteId, SameAnchor;
    if |notes| > 0 {
      var init, last := notes[..|notes| - 1], notes[|notes| - 1];
      NotesWithoutKeep(path, init, key);
      assert forall n :: n in init ==> !SameAnchor(n, last);
    }
  }

  lemma LastIsApart(files: seq<FileNotes>)
    requires Sound(files) && |files| > 0
    ensures Sound(files[..|files| - 1]) && SoundFile(files[|files| - 1])
    ensures forall f :: f in files[..|files| - 1] ==> f.path != files[|files| - 1].path
  {
    hide SoundFile;
    assert forall f :: f in files[..|files| - 1] ==> f in files;
    assert files[|files| - 1] in files;
  }

  lemma NewAtEndKeeps(files: seq<FileNotes>, f: FileNotes)
    requires Sound(files) && SoundFile(f) && forall g :: g in files ==> g.path != f.path
    ensures Sound(files + [f])
  {
    hide SoundFile;
    assert forall g :: g in files + [f] ==> g in files || g == f;
  }

  /** Only paths that were there. */
  ghost predicate PathsOf(files: seq<FileNotes>, all: seq<FileNotes>) {
    forall f :: f in files ==> exists g :: g in all && g.path == f.path
  }

  lemma NewPath(rest: seq<FileNotes>, init: seq<FileNotes>, f: FileNotes)
    requires PathsOf(rest, init) && forall g :: g in init ==> g.path != f.path
    ensures forall g :: g in rest ==> g.path != f.path
  {
  }

  lemma FilesWithoutLast(files: seq<FileNotes>, key: Digest)
    requires |files| > 0
    ensures var init, last := files[..|files| - 1], files[|files| - 1];
            var rest, cut := FilesWithout(init, key), last.(notes := NotesWithout(last.notes, key));
            && init + [last] == files
            && (FilesWithout(files, key) == rest || FilesWithout(files, key) == rest + [cut])
  {
    hide NotesWithout;
    var rest := FilesWithout(files[..|files| - 1], key);
    assert rest + [] == rest;
  }

  lemma {:induction false} WithoutKeeps(files: seq<FileNotes>, key: Digest)
    requires Sound(files)
    ensures Sound(FilesWithout(files, key)) && PathsOf(FilesWithout(files, key), files)
  {
    if |files| > 0 {
      var init, last := files[..|files| - 1], files[|files| - 1];
      LastIsApart(files);
      NotesWithoutKeep(last.path, last.notes, key);
      WithoutKeeps(init, key);
      var rest, cut := FilesWithout(init, key), last.(notes := NotesWithout(last.notes, key));
      FilesWithoutLast(files, key);
      assert SoundFile(cut);
      hide SoundFile, Sound, NotesWithout, FilesWithout, PathsOf;
      NewPath(rest, init, cut);
      NewAtEndKeeps(rest, cut);
      PathsGrow(rest, init, cut, last);
    }
  }

  lemma PathsGrow(files: seq<FileNotes>, all: seq<FileNotes>, f: FileNotes, g: FileNotes)
    requires PathsOf(files, all) && f.path == g.path
    ensures PathsOf(files + [f], all + [g]) && PathsOf(files, all + [g])
  {
    forall x | x in files + [f]
      ensures exists y :: y in all + [g] && y.path == x.path
    {
      if x in files {
        var y :| y in all && y.path == x.path;
        assert y in all + [g];
      } else {
        assert x == f && g in all + [g];
      }
    }
  }

  lemma WriteIsSound(stored: Option<Stored>, base: string, batch: seq<FileNotes>)
    requires stored.Some? ==> Sound(stored.value.files)
    ensures Sound(WriteFiles(stored, base, batch).files)
  {
    FilesAreStamped(batch);
    StampedIsSound(batch);
    hide SoundFile, StampFiles, MergeFiles, Readable;
    assert Sound(Kept(stored, base));
    MergeFilesKeep(Merged(Kept(stored, base), []), StampFiles(batch));
  }

  // ----- What holds of all texts -----

  /** Every path is as `path` wants it, and every summary as `text` does. */
  ghost predicate AllTexts(files: seq<FileNotes>, path: string -> bool, text: string -> bool) {
    forall f :: f in files ==> path(f.path) && NotesTexts(f.notes, text)
  }

  ghost predicate NotesTexts(notes: seq<Note>, text: string -> bool) {
    forall n :: n in notes ==> text(n.summary)
  }

  lemma {:induction false} StampTexts(path: string, held: seq<Note>, notes: seq<Note>, text: string -> bool)
    requires NotesTexts(held, text) && NotesTexts(notes, text)
    ensures NotesTexts(StampNotes(path, held, notes), text)
  {
    hide NoteId, FindAnchor;
    if |notes| > 0 { StampTexts(path, held, notes[..|notes| - 1], text); }
  }

  lemma {:induction false} MergeTexts(m: Merging, path: string, incoming: seq<Note>, text: string -> bool)
    requires AllStamped(incoming) && NotesTexts(m.notes, text) && NotesTexts(incoming, text)
    ensures NotesTexts(MergeNotes(m, path, incoming).notes, text)
  {
    hide FindAnchor;
    if |incoming| > 0 { MergeTexts(m, path, incoming[..|incoming| - 1], text); }
  }

  lemma UpdateTexts(files: seq<FileNotes>, k: nat, f: FileNotes, path: string -> bool, text: string -> bool)
    requires AllTexts(files, path, text) && path(f.path) && NotesTexts(f.notes, text) && k <= |files|
    ensures AllTexts(if k < |files| then files[k := f] else files + [f], path, text)
  {
  }

  lemma {:induction false} StampedTexts(batch: seq<FileNotes>, path: string -> bool, text: string -> bool)
    requires AllTexts(batch, path, text)
    ensures AllTexts(StampFiles(batch), path, text)
  {
    if |batch| > 0 {
      var earlier, f := StampFiles(batch[..|batch| - 1]), batch[|batch| - 1];
      StampedTexts(batch[..|batch| - 1], path, text);
      var k := FindPath(earlier, f.path);
      var entry := WithEntry(earlier, f.path)[k];
      if k < |earlier| { assert earlier[k] in earlier; }
      assert f in batch;
      StampTexts(f.path, entry.notes, f.notes, text);
      var stamped := FileNotes(f.path, Summarised(f.summary, entry.summary), StampNotes(f.path, entry.notes, f.notes));
      hide AllTexts, NotesTexts, StampNotes;
      UpdateTexts(earlier, k, stamped, path, text);
    }
  }

  lemma {:induction false} MergeFilesTexts(m: Merged, incoming: seq<FileNotes>, path: string -> bool, text: string -> bool)
    requires FilesStamped(incoming) && AllTexts(m.files, path, text) && AllTexts(incoming, path, text)
    ensures AllTexts(MergeFiles(m, incoming).files, path, text)
  {
    if |incoming| > 0 {
      var init, f := incoming[..|incoming| - 1], incoming[|incoming| - 1];
      MergeFilesTexts(m, init, path, text);
      var earlier := MergeFiles(m, init);
      var k := FindPath(earlier.files, f.path);
      assert f in incoming;
      if k < |earlier.files| {
        var entry := earlier.files[k];
        assert entry in earlier.files;
        MergeTexts(Merging(entry.notes, PresentIds(f.path, entry.notes), earlier.recorded), f.path, f.notes, text);
      }
      hide AllTexts, NotesTexts, MergeNotes, PresentIds, FindPath;
      UpdateTexts(earlier.files, k, if k < |earlier.files| then MergeFile(earlier, f).files[k] else f, path, text);
    }
  }

  lemma {:induction false} NotesWithoutTexts(notes: seq<Note>, key: Digest, text: string -> bool)
    requires NotesTexts(notes, text)
    ensures NotesTexts(NotesWithout(notes, key), text)
  {
    if |notes| > 0 { NotesWithoutTexts(notes[..|notes| - 1], key, text); }
  }

  lemma {:induction false} FilesWithoutTexts(files: seq<FileNotes>, key: Digest, path: string -> bool, text: string -> bool)
    requires AllTexts(files, path, text)
    ensures AllTexts(FilesWithout(files, key), path, text)
  {
    if |files| > 0 {
      var last := files[|files| - 1];
      assert last in files;
      FilesWithoutTexts(files[..|files| - 1], key, path, text);
      NotesWithoutTexts(last.notes, key, text);
      hide NotesTexts, NotesWithout;
    }
  }

  lemma WriteTexts(stored: Option<Stored>, base: string, batch: seq<FileNotes>, path: string -> bool, text: string -> bool)
    requires AllTexts(Kept(stored, base), path, text) && AllTexts(batch, path, text)
    ensures AllTexts(WriteFiles(stored, base, batch).files, path, text)
  {
    FilesAreStamped(batch);
    StampedTexts(batch, path, text);
    hide Kept, AllTexts, StampFiles, MergeFiles;
    MergeFilesTexts(Merged(Kept(stored, base), []), StampFiles(batch), path, text);
  }
}
