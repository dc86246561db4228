/** The sidecar over whole runs of writes, removals and clears. */
module SidecarRuns {
  import opened Prelude
  import opened Text
  import opened Annotations
  import opened Sidecar
  import opened SidecarStore
  import opened SidecarLaws
  import opened SidecarShape
  import opened SidecarMerge

  datatype Call = WriteCall(base: string, summary: string, batch: seq<FileNotes>) | RemoveCall(key: Digest) | ClearCall

  function Apply(stored: Option<Stored>, call: Call): Option<Stored> {
    match call
    case WriteCall(base, summary, batch) => Write(stored, base, summary, batch)
    case RemoveCall(key) => Remove(stored, key)
    case ClearCall => None
  }

  function After(calls: seq<Call>): Option<Stored> {
    if |calls| == 0 then None else Apply(After(calls[..|calls| - 1]), calls[|calls| - 1])
  }

  ghost predicate SoundStore(stored: Option<Stored>) {
    stored.Some? ==> Sound(stored.value.files)
  }

  lemma ApplyKeepsSound(stored: Option<Stored>, call: Call)
    requires SoundStore(stored)
    ensures SoundStore(Apply(stored, call))
  {
    hide Sound, WriteFiles, FilesWithout;
    match call
    case WriteCall(base, _, batch) => WriteIsSound(stored, base, batch);
    case RemoveCall(key) => if stored.Some? { WithoutKeeps(stored.value.files, key); }
    case ClearCall =>
  }

  /** Whatever is written, removed or cleared, whatever paths and texts look like: in every reachable
      sidecar there is one entry per path, one annotation per path, range and summary, and every id is
      the computed one. */
  lemma {:induction false} EveryRunKeepsSound(calls: seq<Call>)
    ensures SoundStore(After(calls))
  {
    if |calls| > 0 {
      hide SoundStore, Apply;
      EveryRunKeepsSound(calls[..|calls| - 1]);
      ApplyKeepsSound(After(calls[..|calls| - 1]), calls[|calls| - 1]);
    }
  }

  // ----- What holds of all texts written holds of all texts stored -----

  ghost predicate CallTexts(calls: seq<Call>, path: string -> bool, text: string -> bool) {
    forall c :: c in calls && c.WriteCall? ==> AllTexts(c.batch, path, text)
  }

  ghost predicate StoreTexts(stored: Option<Stored>, path: string -> bool, text: string -> bool) {
    stored.Some? ==> AllTexts(stored.value.files, path, text)
  }

  lemma KeptTexts(stored: Option<Stored>, base: string, path: string -> bool, text: string -> bool)
    requires StoreTexts(stored, path, text)
    ensures AllTexts(Kept(stored, base), path, text)
  {
    hide Readable;
  }

  lemma ApplyTexts(stored: Option<Stored>, call: Call, path: string -> bool, text: string -> bool)
    requires StoreTexts(stored, path, text) && (call.WriteCall? ==> AllTexts(call.batch, path, text))
    ensures StoreTexts(Apply(stored, call), path, text)
  {
    hide AllTexts, WriteFiles, FilesWithout;
    match call
    case WriteCall(base, _, batch) =>
      KeptTexts(stored, base, path, text);
      WriteTexts(stored, base, batch, path, text);
    case RemoveCall(key) => if stored.Some? { FilesWithoutTexts(stored.value.files, key, path, text); }
    case ClearCall =>
  }

  /** Whatever all paths and all summaries written have, those stored have. */
  lemma {:induction false} EveryRunKeepsTexts(calls: seq<Call>, path: string -> bool, text: string -> bool)
    requires CallTexts(calls, path, text)
    ensures StoreTexts(After(calls), path, text)
  {
    if |calls| > 0 {
      hide StoreTexts, Apply, AllTexts;
      EveryRunKeepsTexts(calls[..|calls| - 1], path, text);
      ApplyTexts(After(calls[..|calls| - 1]), calls[|calls| - 1], path, text);
    }
  }

  predicate Any(text: string) {
    true
  }

  predicate OneLine(text: string) {
    '\n' !in text
  }

  predicate NotEmpty(text: string) {
    text != ""
  }

  /** A path that could not as well end earlier. */
  predicate Fixed(path: string) {
    path != "" && !MayEndEarlier(path)
  }

  lemma OneLineTexts(files: seq<FileNotes>)
    ensures AllTexts(files, Any, OneLine) <==> OneLineFiles(files)
  {
    if OneLineFiles(files) {
      forall f | f in files
        ensures NotesTexts(f.notes, OneLine)
      {
        assert OneLineNotes(f.notes);
      }
    } else {
      var f :| f in files && !OneLineNotes(f.notes);
      var n :| n in f.notes && !OneLineNote(n);
      assert !OneLine(n.summary);
    }
  }

  // ----- Several calls are one call -----

  ghost predicate Sized(files: seq<FileNotes>) {
    AllTexts(files, NotEmpty, NotEmpty)
  }

  lemma IdsAreNotEmpty(path: string, n: Note)
    ensures NoteId(path, n) != ""
  {
    hide ShowInt;
  }

  lemma SoundIsReadable(s: Stored)
    requires Sound(s.files) && Sized(s.files) && s.base != "" && s.summary != ""
    ensures Readable(s)
  {
    forall f, n | f in s.files && n in f.notes
      ensures n.id != Some("") && n.summary != ""
    {
      assert SoundFile(f);
      IdsAreNotEmpty(f.path, n);
      assert NotEmpty(n.summary);
    }
    forall f | f in s.files
      ensures f.path != ""
    {
      assert NotEmpty(f.path);
    }
  }

  lemma KeptIsSized(stored: Option<Stored>, base: string)
    ensures Sized(Kept(stored, base))
  {
  }

  /** What callers are asked for: non-empty base, summaries and paths. */
  ghost predicate Acceptable(base: string, summary: string, batch: seq<FileNotes>) {
    base != "" && summary != "" && Sized(batch)
  }

  lemma WriteIsReadable(stored: Option<Stored>, base: string, summary: string, batch: seq<FileNotes>)
    requires SoundStore(stored) && Acceptable(base, summary, batch)
    ensures Readable(Write(stored, base, summary, batch).value)
  {
    KeptIsSized(stored, base);
    WriteIsSound(stored, base, batch);
    WriteTexts(stored, base, batch, NotEmpty, NotEmpty);
    hide WriteFiles, Kept, Sound, Readable, AllTexts;
    SoundIsReadable(Write(stored, base, summary, batch).value);
  }

  lemma PlainConcat(a: seq<FileNotes>, b: seq<FileNotes>)
    ensures PlainFiles(a + b) == PlainFiles(a) + PlainFiles(b)
  {
  }

  lemma KeptAfterWrite(stored: Option<Stored>, base: string, summary: string, batch: seq<FileNotes>)
    requires SoundStore(stored) && Acceptable(base, summary, batch)
    ensures Kept(Write(stored, base, summary, batch), base) == WriteFiles(stored, base, batch).files
    ensures SoundStore(Write(stored, base, summary, batch))
  {
    WriteIsReadable(stored, base, summary, batch);
    WriteIsSound(stored, base, batch);
    hide Readable, WriteFiles, Sound;
  }

  /** Recording two batches in two calls of one review span, against recording both at once: where the first
      call and one of the other two writes are recorded in full, both ways leave the same files with the same
      annotations in the same order, up to empty rationales, exactly when all three are. */
  lemma CallsAddUp(stored: Option<Stored>, base: string, first: string, summary: string, a: seq<FileNotes>, b: seq<FileNotes>)
    requires SoundStore(stored) && Acceptable(base, first, a) && WritesAll(Kept(stored, base), a)
    ensures var between := Write(stored, base, first, a);
            var once, twice := Write(stored, base, summary, a + b).value, Write(between, base, summary, b).value;
            var together, apart := WritesAll(Kept(stored, base), a + b), WritesAll(between.value.files, b);
            && twice.base == once.base && twice.summary == once.summary
            && (together || apart ==> (PlainFiles(twice.files) == PlainFiles(once.files) <==> together && apart))
  {
    var between := Write(stored, base, first, a);
    KeptAfterWrite(stored, base, first, a);
    hide Kept, WriteFiles, Sound, AddFiles, Sized, WritesAll;
    WriteAddsBatch(stored, base, a);
    WriteAddsBatch(stored, base, a + b);
    WriteAddsBatch(between, base, b);
    PlainConcat(a, b);
    AddConcat(PlainFiles(Kept(stored, base)), PlainFiles(a), PlainFiles(b));
  }

  /** Into an empty sidecar, or one of another base, everything is recorded. */
  lemma FreshWritesAll(batch: seq<FileNotes>)
    ensures WritesAll([], batch)
  {
  }

  lemma FreshIsStamped(stored: Option<Stored>, base: string, batch: seq<FileNotes>)
    requires Kept(stored, base) == []
    ensures WriteFiles(stored, base, batch).files == StampFiles(batch)
  {
    FilesAreStamped(batch);
    StampedPathsDistinct(batch);
    hide Kept, StampFiles, MergeFiles, AllMentions, DistinctPaths;
    MergeIntoNothing(StampFiles(batch));
  }

  /** Starting a review span, two calls are one exactly when the second drops nothing that the first has
      not stored: a condition on the two batches. */
  lemma FreshCallsAddUp(stored: Option<Stored>, base: string, first: string, summary: string,
                        a: seq<FileNotes>, b: seq<FileNotes>)
    requires SoundStore(stored) && Kept(stored, base) == [] && Acceptable(base, first, a)
    ensures var once := Write(stored, base, summary, a + b).value;
            var twice := Write(Write(stored, base, first, a), base, summary, b).value;
            PlainFiles(twice.files) == PlainFiles(once.files) <==> WritesAll(StampFiles(a), b)
  {
    FreshWritesAll(a);
    FreshWritesAll(a + b);
    FreshIsStamped(stored, base, a);
    hide Kept, WriteFiles, Sound, WritesAll, Acceptable, StampFiles;
    CallsAddUp(stored, base, first, summary, a, b);
  }

  // ----- Repeating a batch -----

  /** Recording the same batch again in the same span records nothing, and leaves every annotation, exactly
      when the first time the id of whatever it dropped stayed present. */
  lemma RepeatRecordsNothing(stored: Option<Stored>, base: string, summary: string, batch: seq<FileNotes>)
    requires SoundStore(stored) && Acceptable(base, summary, batch)
    ensures var once := Write(stored, base, summary, batch);
            var again := WriteFiles(once, base, batch);
            && (again.recorded == [] <==> KeepsIds(Kept(stored, base), batch))
            && (again.recorded == [] ==> SameNotes(again.files, once.value.files))
  {
    KeptAfterWrite(stored, base, summary, batch);
    KeptIsSound(stored, base);
    StampedIsSound(batch);
    FilesAreStamped(batch);
    hide Kept, Sound, Repeatable, SameNotes, StampFiles, MergeFiles, FilesStamped;
    MergeAgain(Kept(stored, base), StampFiles(batch));
  }

  // ----- One-line summaries -----

  lemma OneLineWritesAll(stored: Option<Stored>, base: string, batch: seq<FileNotes>)
    requires SoundStore(stored) && StoreTexts(stored, Any, OneLine) && OneLineFiles(batch)
    ensures WritesAll(Kept(stored, base), batch) && KeepsIds(Kept(stored, base), batch)
  {
    KeptIsSound(stored, base);
    KeptTexts(stored, base, Any, OneLine);
    StampedIsSound(batch);
    FilesAreStamped(batch);
    hide Kept, Sound, AllTexts, StampFiles, OneLineFiles, Lossless, Repeatable, FilesStamped;
    OneLineTexts(batch);
    StampedTexts(batch, Any, OneLine);
    OneLineTexts(StampFiles(batch));
    OneLineTexts(Kept(stored, base));
    OneLineIsLossless(Kept(stored, base), StampFiles(batch));
    LosslessIsRepeatable(Kept(stored, base), StampFiles(batch));
  }

  /** Where summaries are single lines two calls are one, and a batch repeated records nothing. */
  lemma OneLineCallsAddUp(calls: seq<Call>, base: string, first: string, summary: string, a: seq<FileNotes>, b: seq<FileNotes>)
    requires CallTexts(calls, Any, OneLine) && OneLineFiles(a) && OneLineFiles(b) && Acceptable(base, first, a)
    ensures var stored := After(calls);
            var once, between := Write(stored, base, summary, a + b).value, Write(stored, base, first, a);
            && PlainFiles(Write(between, base, summary, b).value.files) == PlainFiles(once.files)
            && WriteFiles(between, base, a).recorded == []
            && SameNotes(WriteFiles(between, base, a).files, between.value.files)
  {
    var stored := After(calls);
    var between := Write(stored, base, first, a);
    EveryRunKeepsSound(calls);
    EveryRunKeepsTexts(calls, Any, OneLine);
    ApplyTexts(stored, WriteCall(base, first, a), Any, OneLine) by { OneLineTexts(a); }
    KeptAfterWrite(stored, base, first, a);
    assert OneLineFiles(a + b);
    hide Kept, Sound, AllTexts, OneLineFiles, WriteFiles, WritesAll, KeepsIds, Acceptable, SameNotes;
    OneLineWritesAll(stored, base, a);
    OneLineWritesAll(stored, base, a + b);
    OneLineWritesAll(between, base, b);
    CallsAddUp(stored, base, first, summary, a, b);
    RepeatRecordsNothing(stored, base, first, a);
  }

  // ----- Removing by key -----

  datatype Listed = Listed(path: string, note: Note)

  function Labelled(path: string, notes: seq<Note>): (r: seq<Listed>)
    ensures |r| == |notes| && forall i :: 0 <= i < |r| ==> r[i] == Listed(path, notes[i])
  {
    seq(|notes|, i requires 0 <= i < |notes| => Listed(path, notes[i]))
  }

  /** All annotations, file by file, in order. */
  function Listing(files: seq<FileNotes>): seq<Listed> {
    if |files| == 0 then []
    else Listing(files[..|files| - 1]) + Labelled(files[|files| - 1].path, files[|files| - 1].notes)
  }

  function ListingOf(stored: Option<Stored>): seq<Listed> {
    if stored.Some? then Listing(stored.value.files) else []
  }

  function ListedWithout(all: seq<Listed>, key: Digest): seq<Listed> {
    if |all| == 0 then []
    else
      var last := all[|all| - 1];
      ListedWithout(all[..|all| - 1], key) + (if last.note.id == Some(key) then [] else [last])
  }

  function CountListed(all: seq<Listed>, key: Digest): nat {
    if |all| == 0 then 0
    else CountListed(all[..|all| - 1], key) + if all[|all| - 1].note.id == Some(key) then 1 else 0
  }

  lemma {:induction false} WithoutConcat(a: seq<Listed>, b: seq<Listed>, key: Digest)
    ensures ListedWithout(a + b, key) == ListedWithout(a, key) + ListedWithout(b, key)
    ensures CountListed(a + b, key) == CountListed(a, key) + CountListed(b, key)
  {
    if |b| == 0 {
      assert a + b == a;
    } else {
      WithoutConcat(a, b[..|b| - 1], key);
      assert (a + b)[..|a + b| - 1] == a + b[..|b| - 1];
    }
  }

  lemma {:induction false} LabelledWithout(path: string, notes: seq<Note>, key: Digest)
    ensures Labelled(path, NotesWithout(notes, key)) == ListedWithout(Labelled(path, notes), key)
    ensures CountNotes(notes, key) == CountListed(Labelled(path, notes), key)
  {
    if |notes| > 0 {
      var init, last := notes[..|notes| - 1], notes[|notes| - 1];
      LabelledWithout(path, init, key);
      var all, left := Labelled(path, notes), NotesWithout(init, key);
      assert all[..|all| - 1] == Labelled(path, init) && all[|all| - 1] == Listed(path, last);
      assert Labelled(path, left + [last]) == Labelled(path, left) + [Listed(path, last)];
      assert Labelled(path, left + []) == Labelled(path, left) + [];
      hide Labelled;
    }
  }

  lemma {:induction false} FilesWithoutListing(files: seq<FileNotes>, key: Digest)
    ensures Listing(FilesWithout(files, key)) == ListedWithout(Listing(files), key)
    ensures CountFiles(files, key) == CountListed(Listing(files), key)
  {
    if |files| > 0 {
      var init, last := files[..|files| - 1], files[|files| - 1];
      hide Labelled, NotesWithout, CountNotes, ListedWithout, CountListed;
      FilesWithoutListing(init, key);
      LabelledWithout(last.path, last.notes, key);
      WithoutConcat(Listing(init), Labelled(last.path, last.notes), key);
      assert NotesWithout(last.notes, key) == [] ==> Labelled(last.path, NotesWithout(last.notes, key)) == [];
      ListingAppended(FilesWithout(init, key), last.(notes := NotesWithout(last.notes, key)));
    }
  }

  lemma ListingAppended(files: seq<FileNotes>, f: FileNotes)
    ensures Listing(files + [f]) == Listing(files) + Labelled(f.path, f.notes)
    ensures Listing(files + []) == Listing(files) + []
  {
    assert (files + [f])[..|files|] == files;
    assert files + [] == files;
  }

  ghost predicate UniqueKeys(all: seq<Listed>) {
    forall i, j :: 0 <= i < j < |all| ==> all[i].note.id != all[j].note.id
  }

  lemma {:induction false} ListedComesFromFile(files: seq<FileNotes>, x: Listed) returns (f: FileNotes)
    requires x in Listing(files)
    ensures f in files && f.path == x.path && x.note in f.notes
  {
    var init, last := files[..|files| - 1], files[|files| - 1];
    if x in Listing(init) {
      f := ListedComesFromFile(init, x);
    } else {
      f := last;
      assert x in Labelled(last.path, last.notes);
    }
  }

  /** With one-line summaries and paths that could not end earlier, no two annotations share a key. */
  lemma {:induction false} KeysAreUnique(files: seq<FileNotes>)
    requires Sound(files) && AllTexts(files, Fixed, OneLine)
    ensures UniqueKeys(Listing(files))
  {
    if |files| > 0 {
      var init, last := files[..|files| - 1], files[|files| - 1];
      LastIsApart(files);
      assert last in files && forall f :: f in init ==> f in files;
      KeysAreUnique(init);
      var a, b := Listing(init), Labelled(last.path, last.notes);
      forall x, y | x in a && y in b
        ensures x.note.id != y.note.id
      {
        AcrossFiles(files, x, y);
      }
      UniqueInFile(last);
      hide Listing, Labelled, Sound, AllTexts;
      UniqueConcat(a, b);
    }
  }

  lemma UniqueInFile(f: FileNotes)
    requires SoundFile(f) && NotesTexts(f.notes, OneLine)
    ensures UniqueKeys(Labelled(f.path, f.notes))
  {
    hide NoteId;
    forall i, j | 0 <= i < j < |f.notes|
      ensures f.notes[i].id != f.notes[j].id
    {
      assert OneLine(f.notes[i].summary) && OneLine(f.notes[j].summary);
      NoteIdsMeanContent(f.path, f.notes[i], f.path, f.notes[j]);
    }
  }

  lemma UniqueConcat(a: seq<Listed>, b: seq<Listed>)
    requires UniqueKeys(a) && UniqueKeys(b)
    requires forall x, y :: x in a && y in b ==> x.note.id != y.note.id
    ensures UniqueKeys(a + b)
  {
  }

  lemma AcrossFiles(files: seq<FileNotes>, x: Listed, y: Listed)
    requires |files| > 0 && Sound(files) && AllTexts(files, Fixed, OneLine) && x in Listing(files[..|files| - 1])
    requires y in Labelled(files[|files| - 1].path, files[|files| - 1].notes)
    ensures x.note.id != y.note.id
  {
    var init, last := files[..|files| - 1], files[|files| - 1];
    LastIsApart(files);
    var f := ListedComesFromFile(init, x);
    assert f in files && last in files && y.note in last.notes;
    assert SoundFile(f) && SoundFile(last) && OneLine(x.note.summary) && OneLine(y.note.summary);
    assert Fixed(f.path) && Fixed(last.path);
    hide Listing, Labelled, Sound, AllTexts, NoteId;
    NoteIdsMeanContent(f.path, x.note, last.path, y.note);
  }

  lemma {:induction false} CountedAt(all: seq<Listed>, key: Digest, q: nat)
    requires q < |all| && all[q].note.id == Some(key)
    ensures CountListed(all, key) > 0
  {
    if q < |all| - 1 { CountedAt(all[..|all| - 1], key, q); }
  }

  lemma InitAndLast(all: seq<Listed>)
    requires |all| > 0
    ensures all[..|all| - 1] + [all[|all| - 1]] == all
    ensures forall x :: x in all <==> x in all[..|all| - 1] || x == all[|all| - 1]
  {
  }

  lemma CountedLast(all: seq<Listed>, key: Digest)
    requires |all| > 0
    ensures var init, last := all[..|all| - 1], all[|all| - 1];
            && CountListed(all, key) == CountListed(init, key) + (if last.note.id == Some(key) then 1 else 0)
            && ListedWithout(all, key) == ListedWithout(init, key) + (if last.note.id == Some(key) then [] else [last])
  {
  }

  lemma {:induction false} CountedNone(all: seq<Listed>, key: Digest)
    ensures CountListed(all, key) == 0 <==> forall x :: x in all ==> x.note.id != Some(key)
    ensures CountListed(all, key) == 0 ==> ListedWithout(all, key) == all
  {
    if |all| > 0 {
      var init, last := all[..|all| - 1], all[|all| - 1];
      CountedNone(init, key);
      InitAndLast(all);
      hide CountListed, ListedWithout;
      CountedLast(all, key);
    }
  }

  lemma {:induction false} CountedOnce(all: seq<Listed>, key: Digest, q: nat)
    requires q < |all| && all[q].note.id == Some(key)
    ensures CountListed(all, key) == 1 ==> ListedWithout(all, key) == all[..q] + all[q + 1..]
    ensures UniqueKeys(all) ==> CountListed(all, key) == 1
  {
    var init, last := all[..|all| - 1], all[|all| - 1];
    if q == |all| - 1 {
      CountedNone(init, key);
      assert all[..q] + all[q + 1..] == init;
    } else {
      CountedAt(init, key, q);
      CountedOnce(init, key, q);
      assert init[..q] + init[q + 1..] + [last] == all[..q] + all[q + 1..];
    }
  }

  /** Removing a key that is carried once removes that annotation and leaves all others in order. */
  lemma RemoveHitsExactlyOne(stored: Option<Stored>, key: Digest, q: nat)
    requires Read(stored).Some? && CountListed(ListingOf(stored), key) == 1
    requires q < |ListingOf(stored)| && ListingOf(stored)[q].note.id == Some(key)
    ensures Outcome(stored, key) == Removed
    ensures ListingOf(Remove(stored, key)) == ListingOf(stored)[..q] + ListingOf(stored)[q + 1..]
  {
    var files := stored.value.files;
    FilesWithoutListing(files, key);
    CountedOnce(Listing(files), key, q);
    NothingListed();
    hide Listing, FilesWithout, CountFiles, Readable, ListedWithout, CountListed;
    assert Outcome(stored, key) == Removed;
    var left := FilesWithout(files, key);
    assert ListingOf(Remove(stored, key)) == Listing(left);
  }

  lemma NothingListed()
    ensures Listing([]) == []
  {
  }

  /** A key that is not carried once is refused, and nothing changes: as not found if nothing carries it, as
      ambiguous if several annotations do. */
  lemma RemoveRefusesOthers(stored: Option<Stored>, key: Digest)
    requires Read(stored).Some? && CountListed(ListingOf(stored), key) != 1
    ensures Remove(stored, key) == stored
    ensures Outcome(stored, key) == if exists x :: x in ListingOf(stored) && x.note.id == Some(key) then Ambiguous else NotFound
  {
    FilesWithoutListing(stored.value.files, key);
    CountedNone(Listing(stored.value.files), key);
    hide Listing, CountFiles, Readable, CountListed;
  }

  /** Where summaries are single lines and no path could end earlier, every listed key can be removed. */
  lemma EveryKeyIsRemovable(calls: seq<Call>, key: Digest, q: nat)
    requires CallTexts(calls, Fixed, OneLine)
    requires q < |ListingOf(After(calls))| && ListingOf(After(calls))[q].note.id == Some(key)
    ensures CountListed(ListingOf(After(calls)), key) == 1
  {
    EveryRunKeepsSound(calls);
    EveryRunKeepsTexts(calls, Fixed, OneLine);
    hide Listing, CountListed, Sound, AllTexts, After, CallTexts;
    KeysAreUnique(After(calls).value.files);
    CountedOnce(ListingOf(After(calls)), key, q);
  }

  // ----- Outside one-line summaries and fixed paths -----

  /** With a line break inside a summary two different annotations of one path and range share an id:
      the second line of the summary can as well begin the rationale. */
  lemma MultilineNotesCollide(path: string, r: Span, first: string, second: string, rationale: string)
    ensures var a, b := Note(None, r, first + "\n" + second, Some(rationale)),
                        Note(None, r, first, Some(second + "\n" + rationale));
            NoteId(path, a) == NoteId(path, b) && !SameAnchor(a, b)
  {
    var a, b := Note(None, r, first + "\n" + second, Some(rationale)), Note(None, r, first, Some(second + "\n" + rationale));
    NoteIdsMeanWording(path, a, path, b);
    hide NoteId, Split;
    assert Wording(a.summary, a.rationale) == Wording(b.summary, b.rationale);
    assert |first + "\n" + second| > |first|;
  }

  /** With a number behind the last line break of a path, annotations of two paths share an id: the number
      can as well begin the range. */
  lemma BrokenPathsCollide(path: string, r: Span, line: int, summary: string, rationale: string)
    ensures var a, b := Note(None, r, summary, Some(rationale)),
                        Note(None, Span(line, r.start), ShowInt(r.end), Some(summary + "\n" + rationale));
            NoteId(path + "\n" + ShowInt(line), a) == NoteId(path, b)
  {
    var number, start, end := ShowInt(line), ShowInt(r.start), ShowInt(r.end);
    var longer, tail := path + "\n" + number, summary + "\n" + rationale;
    hide ShowInt;
    JoinedOnce(summary, [rationale]);
    JoinedOnce(end, [summary, rationale]);
    JoinedOnce(start, [end, summary, rationale]);
    JoinedOnce(longer, [start, end, summary, rationale]);
    JoinedOnce(end, [tail]);
    JoinedOnce(start, [end, tail]);
    JoinedOnce(number, [start, end, tail]);
    JoinedOnce(path, [number, start, end, tail]);
    assert [longer] + [start, end, summary, rationale] == [longer, start, end, summary, rationale];
    assert [path] + [number, start, end, tail] == [path, number, start, end, tail];
    assert [start] + [end, summary, rationale] == [start, end, summary, rationale] && [end] + [summary, rationale] == [end, summary, rationale];
    assert [summary] + [rationale] == [summary, rationale] && [end] + [tail] == [end, tail];
    assert [number] + [start, end, tail] == [number, start, end, tail] && [start] + [end, tail] == [start, end, tail];
    assert Join([rationale], '\n') == rationale && Join([tail], '\n') == tail;
    hide Join;
    Regroup(path + "\n", number, "\n");
    Regroup(path + "\n", number + "\n", Join([start, end, tail], '\n'));
  }

  lemma OneIsStamped(path: string, a: Note)
    ensures StampFiles([FileNotes(path, None, [a])]) == [FileNotes(path, None, [Stamp(path, a)])]
  {
    var f := FileNotes(path, None, [a]);
    hide NoteId;
    assert [a][..0] == [] && [f][..0] == [];
    assert StampNotes(path, [], [a]) == [Stamp(path, a)];
  }

  lemma OneIsWritten(stored: Option<Stored>, base: string, summary: string, path: string, a: Note)
    requires Kept(stored, base) == []
    ensures Write(stored, base, summary, [FileNotes(path, None, [a])])
            == Some(Stored(base, summary, [FileNotes(path, None, [Stamp(path, a)])]))
  {
    var incoming := [FileNotes(path, None, [Stamp(path, a)])];
    OneIsStamped(path, a);
    hide NoteId, Kept, StampFiles, MergeFiles, AllMentions;
    assert FilesStamped(incoming) && DistinctPaths(incoming);
    MergeIntoNothing(incoming);
  }

  lemma PairIsStamped(path: string, a: Note, b: Note)
    requires !SameAnchor(a, b)
    ensures StampFiles([FileNotes(path, None, [a, b])]) == [FileNotes(path, None, [Stamp(path, a), Stamp(path, b)])]
  {
    hide NoteId;
    var x, y, f := Stamp(path, a), Stamp(path, b), FileNotes(path, None, [a, b]);
    assert [a, b][..1] == [a] && [a][..0] == [] && [x][1..] == [];
    assert StampNotes(path, [], [a]) == [x];
    assert StampNotes(path, [], [a, b]) == [x, y];
    assert [f][..0] == [] && StampFiles([]) == [];
  }

  lemma PairCounted(path: string, x: Note, y: Note, key: Digest)
    requires x.id == Some(key) && y.id == Some(key)
    ensures CountFiles([FileNotes(path, None, [x, y])], key) == 2
  {
    var g := FileNotes(path, None, [x, y]);
    assert [x, y][..1] == [x] && [x][..0] == [];
    assert CountNotes([], key) == 0 && CountNotes([x], key) == 1;
    assert [g][..0] == [] && CountFiles([], key) == 0;
  }

  lemma PairIsWritten(base: string, summary: string, path: string, a: Note, b: Note)
    requires !SameAnchor(a, b)
    ensures Write(None, base, summary, [FileNotes(path, None, [a, b])])
            == Some(Stored(base, summary, [FileNotes(path, None, [Stamp(path, a), Stamp(path, b)])]))
  {
    PairIsStamped(path, a, b);
    hide NoteId, StampFiles, MergeFiles, AllMentions;
    var incoming := [FileNotes(path, None, [Stamp(path, a), Stamp(path, b)])];
    assert FilesStamped(incoming) && DistinctPaths(incoming);
    MergeIntoNothing(incoming);
  }

  lemma NothingWritten(once: Option<Stored>, base: string, batch: seq<FileNotes>, files: seq<FileNotes>, f: FileNotes)
    requires Kept(once, base) == files && StampFiles(batch) == [f] && Known(files, f)
    ensures WriteFiles(once, base, batch).recorded == [] && SameNotes(WriteFiles(once, base, batch).files, files)
  {
    FilesAreStamped(batch);
    hide Kept, StampFiles, MergeFiles, SameNotes, PresentIds;
    NothingNew(files, StampFiles(batch));
  }

  /** Recorded by a second call, an annotation that shares its id with a stored one of another range or
      summary is not recorded at all: nothing is reported, nothing stored changes and nothing stored says
      what it says, whereas one call would have stored both. */
  lemma CollidingNoteIsDropped(base: string, first: string, path: string, a: Note, b: Note)
    requires base != "" && first != "" && path != "" && a.summary != ""
    requires NoteId(path, a) == NoteId(path, b) && !SameAnchor(a, b)
    ensures var once, batch := Write(None, base, first, [FileNotes(path, None, [a])]), [FileNotes(path, None, [b])];
            var both := Write(None, base, first, [FileNotes(path, None, [a, b])]);
            && once.value.files == [FileNotes(path, None, [Stamp(path, a)])]
            && WriteFiles(once, base, batch).recorded == []
            && SameNotes(WriteFiles(once, base, batch).files, once.value.files)
            && Plain(Stamp(path, b)) !in PlainNotes(once.value.files[0].notes)
            && both.value.files == [FileNotes(path, None, [Stamp(path, a), Stamp(path, b)])]
            && PlainFiles(WriteFiles(once, base, batch).files) != PlainFiles(both.value.files)
  {
    var batch, x, y := [FileNotes(path, None, [b])], Stamp(path, a), Stamp(path, b);
    OneIsWritten(None, base, first, path, a);
    PairIsWritten(base, first, path, a, b);
    OneIsStamped(path, b);
    IdsAreNotEmpty(path, a);
    OtherIsMissing(x, y);
    OneIsKnown(base, first, path, x, y);
    hide NoteId, Write, StampFiles, MergeFiles, Kept, SameNotes, Plain, PlainFiles, PlainNotes, SameAnchor, WriteFiles;
    var once := Write(None, base, first, [FileNotes(path, None, [a])]);
    NothingWritten(once, base, batch, [FileNotes(path, None, [x])], FileNotes(path, None, [y]));
    FewerNotes(WriteFiles(once, base, batch).files, path, x, y);
  }

  lemma OtherIsMissing(x: Note, y: Note)
    requires !SameAnchor(x, y)
    ensures Plain(y) !in PlainNotes([x])
  {
    assert PlainNotes([x]) == [Plain(x)] && !SameAnchor(Plain(x), Plain(y));
  }

  lemma FewerNotes(files: seq<FileNotes>, path: string, x: Note, y: Note)
    requires SameNotes(files, [FileNotes(path, None, [x])])
    ensures PlainFiles(files) != PlainFiles([FileNotes(path, None, [x, y])])
  {
    assert |PlainFiles(files)[0].notes| == 1 && |PlainFiles([FileNotes(path, None, [x, y])])[0].notes| == 2;
  }

  lemma OneIsKnown(base: string, summary: string, path: string, x: Note, y: Note)
    requires base != "" && summary != "" && path != "" && x.summary != "" && x.id == y.id && x.id != Some("")
    ensures var files := [FileNotes(path, None, [x])];
            && Kept(Some(Stored(base, summary, files)), base) == files
            && FindPath(files, path) == 0
            && Known(files, FileNotes(path, None, [y]))
  {
    var files := [FileNotes(path, None, [x])];
    assert x in files[0].notes;
  }

  /** Recorded by one call into an empty sidecar, both are stored under the one key, and removing that
      key is refused as ambiguous. */
  lemma CollidingPairIsStuck(base: string, summary: string, path: string, a: Note, b: Note)
    requires base != "" && summary != "" && path != "" && a.summary != "" && b.summary != ""
    requires NoteId(path, a) == NoteId(path, b) && !SameAnchor(a, b)
    ensures var stored := Write(None, base, summary, [FileNotes(path, None, [a, b])]);
            && Outcome(stored, NoteId(path, a)) == Ambiguous
            && Remove(stored, NoteId(path, a)) == stored
  {
    IdsAreNotEmpty(path, a);
    PairIsWritten(base, summary, path, a, b);
    var x, y := Stamp(path, a), Stamp(path, b);
    PairCounted(path, x, y, NoteId(path, a));
    hide NoteId, CountFiles, Write, SameAnchor, Readable;
    PairIsReadable(base, summary, path, x, y);
  }

  lemma PairIsReadable(base: string, summary: string, path: string, x: Note, y: Note)
    requires base != "" && summary != "" && path != ""
    requires x.summary != "" && y.summary != "" && x.id != Some("") && y.id != Some("")
    ensures Readable(Stored(base, summary, [FileNotes(path, None, [x, y])]))
  {
    assert forall n :: n in [x, y] ==> n == x || n == y;
  }

  lemma TwoFilesAreWritten(base: string, summary: string, p: string, a: Note, q: string, b: Note)
    requires p != q
    ensures Write(None, base, summary, [FileNotes(p, None, [a]), FileNotes(q, None, [b])])
            == Some(Stored(base, summary, [FileNotes(p, None, [Stamp(p, a)]), FileNotes(q, None, [Stamp(q, b)])]))
  {
    OneIsStamped(p, a);
    var incoming := [FileNotes(p, None, [Stamp(p, a)]), FileNotes(q, None, [Stamp(q, b)])];
    TwoAreStamped(p, a, q, b);
    hide NoteId, StampFiles, MergeFiles, AllMentions;
    assert FilesStamped(incoming) && DistinctPaths(incoming);
    MergeIntoNothing(incoming);
  }

  lemma TwoAreStamped(p: string, a: Note, q: string, b: Note)
    requires p != q && StampFiles([FileNotes(p, None, [a])]) == [FileNotes(p, None, [Stamp(p, a)])]
    ensures StampFiles([FileNotes(p, None, [a]), FileNotes(q, None, [b])])
            == [FileNotes(p, None, [Stamp(p, a)]), FileNotes(q, None, [Stamp(q, b)])]
  {
    var f, g := FileNotes(p, None, [a]), FileNotes(q, None, [b]);
    hide NoteId;
    assert [f, g][..1] == [f] && [b][..0] == [];
    assert StampNotes(q, [], [b]) == [Stamp(q, b)];
    var earlier := StampFiles([f]);
    assert earlier[1..] == [];
    assert FindPath(earlier, q) == 1;
  }

  lemma TwoFilesCounted(p: string, x: Note, q: string, y: Note, key: Digest)
    requires x.id == Some(key) && y.id == Some(key)
    ensures CountFiles([FileNotes(p, None, [x]), FileNotes(q, None, [y])], key) == 2
  {
    var f, g := FileNotes(p, None, [x]), FileNotes(q, None, [y]);
    assert [x][..0] == [] && [y][..0] == [] && [f, g][..1] == [f] && [f][..0] == [];
    assert CountNotes([], key) == 0 && CountNotes([x], key) == 1 && CountNotes([y], key) == 1;
    assert CountFiles([], key) == 0 && CountFiles([f], key) == 1;
  }

  lemma TwoFilesAreReadable(base: string, summary: string, p: string, x: Note, q: string, y: Note)
    requires base != "" && summary != "" && p != "" && q != ""
    requires x.summary != "" && y.summary != "" && x.id != Some("") && y.id != Some("")
    ensures Readable(Stored(base, summary, [FileNotes(p, None, [x]), FileNotes(q, None, [y])]))
  {
    var f, g := FileNotes(p, None, [x]), FileNotes(q, None, [y]);
    assert forall h :: h in [f, g] ==> h == f || h == g;
  }

  /** Annotations of two paths that share an id are both stored, and neither can be removed. */
  lemma CollidingPathsAreStuck(base: string, summary: string, p: string, a: Note, q: string, b: Note)
    requires base != "" && summary != "" && p != "" && q != "" && p != q && a.summary != "" && b.summary != ""
    requires NoteId(p, a) == NoteId(q, b)
    ensures var stored := Write(None, base, summary, [FileNotes(p, None, [a]), FileNotes(q, None, [b])]);
            && Outcome(stored, NoteId(p, a)) == Ambiguous
            && Remove(stored, NoteId(p, a)) == stored
  {
    IdsAreNotEmpty(p, a);
    TwoFilesAreWritten(base, summary, p, a, q, b);
    var x, y := Stamp(p, a), Stamp(q, b);
    TwoFilesCounted(p, x, q, y, NoteId(p, a));
    hide NoteId, CountFiles, Write, Readable;
    TwoFilesAreReadable(base, summary, p, x, q, y);
  }

  /** A batch that supersedes an annotation and drops another one for sharing its id forgets that id: given
      again, it records the one it dropped. */
  lemma ForgottenIsRecorded(base: string, summary: string, path: string, z: Note, n: Note, v: Note)
    requires base != "" && summary != "" && path != "" && z.summary != "" && v.summary != ""
    requires NoteId(path, n) == NoteId(path, z) && !SameAnchor(n, z)
    requires NoteId(path, v) != NoteId(path, z) && SameAnchor(v, z)
    ensures var batch := [FileNotes(path, None, [n, v])];
            var once := Write(Write(None, base, summary, [FileNotes(path, None, [z])]), base, summary, batch);
            var again := WriteFiles(once, base, batch);
            && once.value.files == [FileNotes(path, None, [Stamp(path, v)])]
            && again.recorded == [MentionOf(path, Stamp(path, n))]
            && again.files == [FileNotes(path, None, [Stamp(path, v), Stamp(path, n)])]
  {
    var x, y, w := Stamp(path, z), Stamp(path, n), Stamp(path, v);
    var first := Write(None, base, summary, [FileNotes(path, None, [z])]);
    OneIsWritten(None, base, summary, path, z);
    PairIsStamped(path, n, v);
    IdsAreNotEmpty(path, z);
    IdsAreNotEmpty(path, v);
    OneIsKnown(base, summary, path, x, y);
    OneIsKnown(base, summary, path, w, w);
    hide NoteId, Kept, StampFiles, Known;
    OneEntryMerged(path, [x], y, w);
    OneEntryMerged(path, [w], y, w);
    SupersedesAfterDrop(path, x, y, w);
    AppendsBeforeRepeat(path, y, w);
    hide MergeNotes, PresentIds;
  }

  /** Merging a file of two annotations into the one entry there is. */
  lemma OneEntryMerged(path: string, held: seq<Note>, y: Note, w: Note)
    requires y.id.Some? && w.id.Some?
    ensures var f := FileNotes(path, None, [y, w]);
            var r := MergeNotes(Merging(held, PresentIds(path, held), []), path, [y, w]);
            FilesStamped([f]) && MergeFiles(Merged([FileNotes(path, None, held)], []), [f])
                                 == Merged([FileNotes(path, None, r.notes)], r.recorded)
  {
    var f, files := FileNotes(path, None, [y, w]), [FileNotes(path, None, held)];
    assert FindPath(files, path) == 0;
    assert [f][..0] == [];
    assert MergeFiles(Merged(files, []), []) == Merged(files, []);
    hide MergeNotes, PresentIds;
  }

  lemma MergedPair(m: Merging, path: string, y: Note, w: Note)
    requires y.id.Some? && w.id.Some?
    ensures MergeNotes(m, path, [y, w]) == MergeNote(MergeNote(m, path, y), path, w)
  {
    assert [y, w][..1] == [y] && [y][..0] == [];
    assert MergeNotes(m, path, []) == m && MergeNotes(m, path, [y]) == MergeNote(m, path, y);
    hide MergeNote;
  }

  lemma SupersedesAfterDrop(path: string, x: Note, y: Note, w: Note)
    requires x.id.Some? && y.id == x.id && w.id.Some? && w.id != x.id && SameAnchor(w, x)
    ensures MergeNotes(Merging([x], PresentIds(path, [x]), []), path, [y, w]).notes == [w]
  {
    hide NoteId;
    var m := Merging([x], PresentIds(path, [x]), []);
    assert x in [x] && m.present == {x.id.value};
    MergedPair(m, path, y, w);
    assert FindAnchor([x], w) == 0 && [x][0 := w] == [w];
  }

  lemma AppendsBeforeRepeat(path: string, y: Note, w: Note)
    requires y.id.Some? && w.id.Some? && w.id != y.id && !SameAnchor(w, y)
    ensures var r := MergeNotes(Merging([w], PresentIds(path, [w]), []), path, [y, w]);
            r.notes == [w, y] && r.recorded == [MentionOf(path, y)]
  {
    hide NoteId;
    var m := Merging([w], PresentIds(path, [w]), []);
    assert w in [w] && m.present == {w.id.value};
    MergedPair(m, path, y, w);
    assert [w][1..] == [] && FindAnchor([w], y) == 1;
  }

  /** There are such batches for all texts. */
  lemma SomeAreForgotten(path: string, r: Span, first: string, second: string, rationale: string, other: string)
    requires other != rationale
    ensures var z, n := Note(None, r, first + "\n" + second, Some(rationale)),
                        Note(None, r, first, Some(second + "\n" + rationale));
            var v := z.(rationale := Some(other));
            && NoteId(path, n) == NoteId(path, z) && !SameAnchor(n, z)
            && NoteId(path, v) != NoteId(path, z) && SameAnchor(v, z)
  {
    var z := Note(None, r, first + "\n" + second, Some(rationale));
    var v := z.(rationale := Some(other));
    MultilineNotesCollide(path, r, first, second, rationale);
    NoteIdsMeanWording(path, v, path, z);
    hide NoteId, Split;
    var front := z.summary + "\n";
    assert Wording(z.summary, z.rationale)[|front|..] == rationale && Wording(v.summary, v.rationale)[|front|..] == other;
  }
}
