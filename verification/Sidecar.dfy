/** The annotation sidecar of one worktree: stamping a batch, merging it into what is stored, removing
    single annotations and clearing. A digest stands for the text it is taken of. */
module Sidecar {
  import opened Prelude
  import opened Text
  import opened Annotations

  datatype Note = Note(id: Option<Digest>, range: Span, summary: string, rationale: Option<string>)

  datatype FileNotes = FileNotes(path: string, summary: Option<string>, notes: seq<Note>)

  datatype Stored = Stored(base: string, summary: string, files: seq<FileNotes>)

  /** What a call reports for each annotation it contributed. */
  datatype Mention = Mention(id: Digest, path: string, range: Span, summary: string)

  function NoteId(path: string, n: Note): Digest {
    Join([path, ShowInt(n.range.start), ShowInt(n.range.end), n.summary, OrEmpty(n.rationale)], '\n')
  }

  function Stamp(path: string, n: Note): Note {
    n.(id := Some(NoteId(path, n)))
  }

  predicate SameAnchor(a: Note, b: Note) {
    a.range == b.range && a.summary == b.summary
  }

  /** The first note with the same anchor; the length of the list when there is none. */
  function FindAnchor(notes: seq<Note>, n: Note): (k: nat)
    ensures k <= |notes|
    ensures k < |notes| ==> SameAnchor(notes[k], n)
    ensures forall i :: 0 <= i < k ==> !SameAnchor(notes[i], n)
  {
    if |notes| == 0 || SameAnchor(notes[0], n) then 0 else 1 + FindAnchor(notes[1..], n)
  }

  /** Superseding in place, or appending. */
  function Upsert(notes: seq<Note>, n: Note): seq<Note> {
    var k := FindAnchor(notes, n);
    if k < |notes| then notes[k := n] else notes + [n]
  }

  function StampNotes(path: string, held: seq<Note>, notes: seq<Note>): seq<Note> {
    if |notes| == 0 then held
    else Upsert(StampNotes(path, held, notes[..|notes| - 1]), Stamp(path, notes[|notes| - 1]))
  }

  function FindPath(files: seq<FileNotes>, path: string): (k: nat)
    ensures k <= |files|
    ensures k < |files| ==> files[k].path == path
    ensures forall i :: 0 <= i < k ==> files[i].path != path
  {
    if |files| == 0 || files[0].path == path then 0 else 1 + FindPath(files[1..], path)
  }

  /** The entry of a path, an empty new one at the end if there is none. */
  function WithEntry(files: seq<FileNotes>, path: string): (r: seq<FileNotes>)
    ensures FindPath(files, path) < |r| && r[FindPath(files, path)].path == path
  {
    if FindPath(files, path) < |files| then files else files + [FileNotes(path, None, [])]
  }

  function Summarised(summary: Option<string>, before: Option<string>): Option<string> {
    if summary.Some? then summary else before
  }

  function StampFile(files: seq<FileNotes>, f: FileNotes): seq<FileNotes> {
    var k := FindPath(files, f.path);
    var entry := WithEntry(files, f.path)[k];
    WithEntry(files, f.path)[k := FileNotes(f.path, Summarised(f.summary, entry.summary),
                                            StampNotes(f.path, entry.notes, f.notes))]
  }

  function StampFiles(files: seq<FileNotes>): seq<FileNotes> {
    if |files| == 0 then [] else StampFile(StampFiles(files[..|files| - 1]), files[|files| - 1])
  }

  // ----- Merging -----

  /** One file while incoming notes are folded into it. */
  datatype Merging = Merging(notes: seq<Note>, present: set<Digest>, recorded: seq<Mention>)

  function MentionOf(path: string, n: Note): Mention
    requires n.id.Some?
  {
    Mention(n.id.value, path, n.range, n.summary)
  }

  predicate AllStamped(notes: seq<Note>) {
    forall n :: n in notes ==> n.id.Some?
  }

  function MergeNote(m: Merging, path: string, n: Note): Merging
    requires n.id.Some?
  {
    if n.id.value in m.present then m
    else
      var k := FindAnchor(m.notes, n);
      Merging(if k < |m.notes| then m.notes[k := n] else m.notes + [n],
              (if k < |m.notes| then m.present - {OrEmpty(m.notes[k].id)} else m.present) + {n.id.value},
              m.recorded + [MentionOf(path, n)])
  }

  function MergeNotes(m: Merging, path: string, incoming: seq<Note>): Merging
    requires AllStamped(incoming)
  {
    if |incoming| == 0 then m
    else MergeNote(MergeNotes(m, path, incoming[..|incoming| - 1]), path, incoming[|incoming| - 1])
  }

  function PresentIds(path: string, notes: seq<Note>): set<Digest> {
    set n | n in notes :: if n.id.Some? then n.id.value else NoteId(path, n)
  }

  datatype Merged = Merged(files: seq<FileNotes>, recorded: seq<Mention>)

  function Mentions(path: string, notes: seq<Note>): seq<Mention>
    requires AllStamped(notes)
  {
    if |notes| == 0 then []
    else Mentions(path, notes[..|notes| - 1]) + [MentionOf(path, notes[|notes| - 1])]
  }

  function MergeFile(m: Merged, f: FileNotes): Merged
    requires AllStamped(f.notes)
  {
    var k := FindPath(m.files, f.path);
    if k == |m.files| then Merged(m.files + [f], m.recorded + Mentions(f.path, f.notes))
    else
      var entry := m.files[k];
      var merging := MergeNotes(Merging(entry.notes, PresentIds(f.path, entry.notes), m.recorded), f.path, f.notes);
      Merged(m.files[k := FileNotes(f.path, Summarised(f.summary, entry.summary), merging.notes)], merging.recorded)
  }

  predicate FilesStamped(files: seq<FileNotes>) {
    forall f :: f in files ==> AllStamped(f.notes)
  }

  function MergeFiles(m: Merged, incoming: seq<FileNotes>): Merged
    requires FilesStamped(incoming)
  {
    if |incoming| == 0 then m
    else MergeFile(MergeFiles(m, incoming[..|incoming| - 1]), incoming[|incoming| - 1])
  }

  // ----- The stored sidecar -----

  /** What the schema accepts when the file is read back. */
  predicate Readable(s: Stored) {
    && s.base != "" && s.summary != ""
    && (forall f :: f in s.files ==> f.path != "" && forall n :: n in f.notes ==> n.summary != "" && n.id != Some(""))
  }

  function Read(stored: Option<Stored>): Option<Stored> {
    if stored.Some? && Readable(stored.value) then stored else None
  }

  /** The files a write starts from: those of the same review span. */
  function Kept(stored: Option<Stored>, base: string): seq<FileNotes> {
    if Read(stored).Some? && stored.value.base == base then stored.value.files else []
  }

  lemma {:induction false} NotesAreStamped(path: string, held: seq<Note>, notes: seq<Note>)
    requires AllStamped(held)
    ensures AllStamped(StampNotes(path, held, notes))
  {
    if |notes| > 0 { NotesAreStamped(path, held, notes[..|notes| - 1]); }
  }

  lemma {:induction false} FilesAreStamped(files: seq<FileNotes>)
    ensures FilesStamped(StampFiles(files))
  {
    if |files| > 0 {
      var earlier, f := StampFiles(files[..|files| - 1]), files[|files| - 1];
      FilesAreStamped(files[..|files| - 1]);
      NotesAreStamped(f.path, WithEntry(earlier, f.path)[FindPath(earlier, f.path)].notes, f.notes);
    }
  }

  function WriteFiles(stored: Option<Stored>, base: string, files: seq<FileNotes>): Merged {
    FilesAreStamped(files);
    MergeFiles(Merged(Kept(stored, base), []), StampFiles(files))
  }

  function Write(stored: Option<Stored>, base: string, summary: string, files: seq<FileNotes>): Option<Stored> {
    Some(Stored(base, summary, WriteFiles(stored, base, files).files))
  }

  datatype Removal = Removed | NothingRecorded | NotFound | Ambiguous

  function CountNotes(notes: seq<Note>, key: Digest): nat {
    if |notes| == 0 then 0
    else CountNotes(notes[..|notes| - 1], key) + if notes[|notes| - 1].id == Some(key) then 1 else 0
  }

  function CountFiles(files: seq<FileNotes>, key: Digest): nat {
    if |files| == 0 then 0 else CountFiles(files[..|files| - 1], key) + CountNotes(files[|files| - 1].notes, key)
  }

  function NotesWithout(notes: seq<Note>, key: Digest): seq<Note> {
    if |notes| == 0 then []
    else
      var last := notes[|notes| - 1];
      NotesWithout(notes[..|notes| - 1], key) + (if last.id == Some(key) then [] else [last])
  }

  function FilesWithout(files: seq<FileNotes>, key: Digest): seq<FileNotes> {
    if |files| == 0 then []
    else
      var last := files[|files| - 1];
      var notes := NotesWithout(last.notes, key);
      FilesWithout(files[..|files| - 1], key) + (if notes == [] then [] else [last.(notes := notes)])
  }

  function Outcome(stored: Option<Stored>, key: Digest): Removal {
    var s := Read(stored);
    if s.None? then NothingRecorded
    else if CountFiles(s.value.files, key) == 0 then NotFound
    else if CountFiles(s.value.files, key) > 1 then Ambiguous
    else Removed
  }

  function Remove(stored: Option<Stored>, key: Digest): Option<Stored> {
    if Outcome(stored, key) != Removed then stored
    else
      var files := FilesWithout(stored.value.files, key);
      if files == [] then None else Some(stored.value.(files := files))
  }
}
