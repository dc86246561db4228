/** The stored sidecar as it is changed: loops over files and annotations, proved to compute what the
    specification functions say. */
module SidecarStore {
  import opened Prelude
  import opened Annotations
  import opened Sidecar

  method StampIntoEntry(path: string, held: seq<Note>, incoming: seq<Note>) returns (notes: seq<Note>)
    ensures notes == StampNotes(path, held, incoming)
  {
    hide Stamp;
    notes := held;
    for i := 0 to |incoming|
      invariant notes == StampNotes(path, held, incoming[..i])
    {
      assert incoming[..i + 1][..i] == incoming[..i];
      var stamped := Stamp(path, incoming[i]);
      var at := FindAnchor(notes, stamped);
      notes := if at < |notes| then notes[at := stamped] else notes + [stamped];
    }
    assert incoming[..|incoming|] == incoming;
  }

  method StampBatch(files: seq<FileNotes>) returns (byPath: seq<FileNotes>)
    ensures byPath == StampFiles(files)
  {
    hide StampNotes, FindPath;
    byPath := [];
    for i := 0 to |files|
      invariant byPath == StampFiles(files[..i])
    {
      assert files[..i + 1][..i] == files[..i];
      var f := files[i];
      var k := FindPath(byPath, f.path);
      if k == |byPath| { byPath := byPath + [FileNotes(f.path, None, [])]; }
      var notes := StampIntoEntry(f.path, byPath[k].notes, f.notes);
      byPath := byPath[k := FileNotes(f.path, if f.summary.Some? then f.summary else byPath[k].summary, notes)];
    }
    assert files[..|files|] == files;
  }

  method MergeIntoEntry(path: string, start: Merging, incoming: seq<Note>) returns (m: Merging)
    requires AllStamped(incoming)
    ensures m == MergeNotes(start, path, incoming)
  {
    hide FindAnchor;
    var notes, present, recorded := start.notes, start.present, start.recorded;
    for i := 0 to |incoming|
      invariant Merging(notes, present, recorded) == MergeNotes(start, path, incoming[..i])
    {
      assert incoming[..i + 1][..i] == incoming[..i];
      var a := incoming[i];
      var id := a.id.value;
      if id in present { continue; }
      var superseded := FindAnchor(notes, a);
      if superseded < |notes| {
        present := present - {OrEmpty(notes[superseded].id)};
        notes := notes[superseded := a];
      } else {
        notes := notes + [a];
      }
      present := present + {id};
      recorded := recorded + [MentionOf(path, a)];
    }
    assert incoming[..|incoming|] == incoming;
    m := Merging(notes, present, recorded);
  }

  method MergeSidecar(existing: seq<FileNotes>, incoming: seq<FileNotes>)
    returns (files: seq<FileNotes>, recorded: seq<Mention>)
    requires FilesStamped(incoming)
    ensures Merged(files, recorded) == MergeFiles(Merged(existing, []), incoming)
  {
    hide MergeNotes, FindPath, PresentIds, AllStamped;
    files, recorded := existing, [];
    for i := 0 to |incoming|
      invariant Merged(files, recorded) == MergeFiles(Merged(existing, []), incoming[..i])
    {
      assert incoming[..i + 1][..i] == incoming[..i];
      var f := incoming[i];
      assert f in incoming && AllStamped(f.notes);
      var k := FindPath(files, f.path);
      if k == |files| {
        files, recorded := files + [f], recorded + Mentions(f.path, f.notes);
        continue;
      }
      var entry := files[k];
      var merging := MergeIntoEntry(f.path, Merging(entry.notes, PresentIds(f.path, entry.notes), recorded), f.notes);
      recorded := merging.recorded;
      files := files[k := FileNotes(f.path, if f.summary.Some? then f.summary else entry.summary, merging.notes)];
    }
    assert incoming[..|incoming|] == incoming;
  }

  ghost predicate DistinctPaths(files: seq<FileNotes>) {
    forall i, j :: 0 <= i < j < |files| ==> files[i].path != files[j].path
  }

  lemma {:induction false} StampedPathsDistinct(files: seq<FileNotes>)
    ensures DistinctPaths(StampFiles(files))
  {
    hide StampNotes;
    if |files| > 0 { StampedPathsDistinct(files[..|files| - 1]); }
  }

  function AllMentions(files: seq<FileNotes>): seq<Mention>
    requires FilesStamped(files)
  {
    if |files| == 0 then []
    else AllMentions(files[..|files| - 1]) + Mentions(files[|files| - 1].path, files[|files| - 1].notes)
  }

  /** A fresh span takes the stamped batch as it is. */
  lemma {:induction false} MergeIntoNothing(incoming: seq<FileNotes>)
    requires FilesStamped(incoming) && DistinctPaths(incoming)
    ensures MergeFiles(Merged([], []), incoming) == Merged(incoming, AllMentions(incoming))
  {
    if |incoming| > 0 {
      var init, last := incoming[..|incoming| - 1], incoming[|incoming| - 1];
      assert forall f :: f in init ==> f in incoming;
      MergeIntoNothing(init);
      hide Mentions, AllStamped;
      assert init + [last] == incoming;
      assert FindPath(init, last.path) == |init|;
    }
  }

  class Store {
    var stored: Option<Stored>

    constructor ()
      ensures stored == None
    {
      stored := None;
    }

    method WriteSidecar(base: string, summary: string, batch: seq<FileNotes>) returns (recorded: seq<Mention>)
      modifies this
      ensures stored == Write(old(stored), base, summary, batch)
      ensures recorded == WriteFiles(old(stored), base, batch).recorded
    {
      hide MergeFiles, StampFiles, FilesStamped;
      var incoming := StampBatch(batch);
      FilesAreStamped(batch);
      var existing := Read(stored);
      var files: seq<FileNotes>;
      if existing.Some? && existing.value.base == base {
        files, recorded := MergeSidecar(existing.value.files, incoming);
      } else {
        StampedPathsDistinct(batch);
        MergeIntoNothing(incoming);
        files := incoming;
        recorded := AllMentions(incoming);
      }
      stored := Some(Stored(base, summary, files));
    }

    method ClearSidecar()
      modifies this
      ensures stored == None
    {
      stored := None;
    }

    method CountMatches(files: seq<FileNotes>, key: Digest) returns (matches: nat)
      ensures matches == CountFiles(files, key)
    {
      matches := 0;
      for i := 0 to |files|
        invariant matches == CountFiles(files[..i], key)
      {
        assert files[..i + 1][..i] == files[..i];
        var notes := files[i].notes;
        ghost var before := matches;
        for j := 0 to |notes|
          invariant matches == before + CountNotes(notes[..j], key)
        {
          assert notes[..j + 1][..j] == notes[..j];
          if notes[j].id == Some(key) { matches := matches + 1; }
        }
        assert notes[..|notes|] == notes;
      }
      assert files[..|files|] == files;
    }

    method RemoveAnnotation(key: Digest) returns (outcome: Removal)
      modifies this
      ensures outcome == Outcome(old(stored), key) && stored == Remove(old(stored), key)
    {
      var sidecar := Read(stored);
      if sidecar.None? { return NothingRecorded; }
      var matches := CountMatches(sidecar.value.files, key);
      if matches == 0 { return NotFound; }
      if matches > 1 { return Ambiguous; }
      var files := FilesWithout(sidecar.value.files, key);
      stored := if files == [] then None else Some(sidecar.value.(files := files));
      return Removed;
    }
  }
}
