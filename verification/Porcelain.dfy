/** The NUL-terminated status stream, and the untracked paths read from it. */
module Porcelain {
  import opened Prelude
  import opened Text

  const NUL: char := '\0'

  predicate IsRecord(field: string): (b: bool)
    ensures b ==> |field| >= 3
  {
    |field| >= 3 && field[2] == ' '
  }

  predicate IsUntracked(field: string)
    requires IsRecord(field)
  {
    field[0] == '?' && field[1] == '?'
  }

  /** A rename or copy record is followed by a field of its own with the old path. */
  predicate HasSource(field: string)
    requires IsRecord(field)
  {
    field[0] == 'R' || field[1] == 'R' || field[0] == 'C' || field[1] == 'C'
  }

  /** What one field contributes. */
  function Listed(field: string): seq<string> {
    if IsRecord(field) && IsUntracked(field) then [field[3..]] else []
  }

  /** How many fields one record takes up. */
  function Width(field: string): (n: nat)
    ensures n > 0
  {
    if IsRecord(field) && HasSource(field) then 2 else 1
  }

  function UntrackedPaths(fields: seq<string>): seq<string>
    decreases |fields|
  {
    if |fields| == 0 then []
    else Listed(fields[0]) + UntrackedPaths(Drop(fields, Width(fields[0])))
  }

  function Drop(fields: seq<string>, n: nat): (rest: seq<string>)
    ensures |rest| <= |fields| && (0 < n && |fields| > 0 ==> |rest| < |fields|)
  {
    if n <= |fields| then fields[n..] else []
  }

  method ParseUntracked(status: string) returns (paths: seq<string>)
    ensures paths == UntrackedPaths(Split(status, NUL))
  {
    hide Split, UntrackedPaths, Drop, Listed, Width, IsRecord, IsUntracked, HasSource;
    var fields := Split(status, NUL);
    paths := [];
    var index := 0;
    ReadFromStart(fields);
    while index < |fields|
      invariant 0 <= index
      invariant paths + UntrackedPaths(Drop(fields, index)) == UntrackedPaths(fields)
    {
      var record := fields[index];
      OneMore(fields, index, paths);
      FieldRead(record, paths);
      if IsRecord(record) {
        if IsUntracked(record) { paths := paths + [record[3..]]; }
        if HasSource(record) { index := index + 1; }
      }
      index := index + 1;
    }
    ReadToEnd(fields, index, paths);
  }

  lemma ReadFromStart(fields: seq<string>)
    ensures [] + UntrackedPaths(Drop(fields, 0)) == UntrackedPaths(fields)
  {
  }

  lemma ReadToEnd(fields: seq<string>, index: nat, paths: seq<string>)
    requires index >= |fields|
    ensures paths + UntrackedPaths(Drop(fields, index)) == paths
  {
  }

  lemma FieldRead(field: string, paths: seq<string>)
    ensures paths + Listed(field) == if IsRecord(field) && IsUntracked(field) then paths + [field[3..]] else paths
    ensures Width(field) == if IsRecord(field) && HasSource(field) then 2 else 1
  {
  }

  lemma OneMore(fields: seq<string>, index: nat, paths: seq<string>)
    requires index < |fields|
    ensures paths + UntrackedPaths(Drop(fields, index)) ==
              (paths + Listed(fields[index])) + UntrackedPaths(Drop(fields, index + Width(fields[index])))
  {
    hide Listed, Width;
    var rest := Drop(fields, index);
    var n := Width(fields[index]);
    assert Drop(rest, n) == Drop(fields, index + n);
  }

  // ----- The stream git writes -----

  datatype Entry = Entry(x: char, y: char, path: string, source: Option<string>)

  /** A source path goes with a rename or copy code, and no field contains the terminator. */
  predicate WellFormed(e: Entry) {
    && e.x != NUL && e.y != NUL && NUL !in e.path
    && (e.source.Some? ==> NUL !in e.source.value)
    && (e.source.Some? <==> e.x == 'R' || e.y == 'R' || e.x == 'C' || e.y == 'C')
  }

  function Fields(e: Entry): seq<string> {
    [[e.x, e.y, ' '] + e.path] + if e.source.Some? then [e.source.value] else []
  }

  function Stream(entries: seq<Entry>): seq<string> {
    if |entries| == 0 then [""] else Fields(entries[0]) + Stream(entries[1..])
  }

  /** The printed status: every field followed by the terminator. */
  function Printed(entries: seq<Entry>): string
  {
    StreamNonEmpty(entries);
    Join(Stream(entries), NUL)
  }

  lemma {:induction false} StreamNonEmpty(entries: seq<Entry>)
    ensures |Stream(entries)| > 0
  {
    if |entries| > 0 { StreamNonEmpty(entries[1..]); }
  }

  function Untracked(entries: seq<Entry>): seq<string> {
    if |entries| == 0 then []
    else (if entries[0].x == '?' && entries[0].y == '?' then [entries[0].path] else []) + Untracked(entries[1..])
  }

  lemma {:induction false} StreamIsFree(entries: seq<Entry>)
    requires forall e :: e in entries ==> WellFormed(e)
    ensures FreeOf(Stream(entries), NUL)
  {
    if |entries| > 0 {
      StreamIsFree(entries[1..]);
      var e := entries[0];
      assert WellFormed(e);
      assert NUL !in [e.x, e.y, ' '] + e.path;
    }
  }

  lemma EntryRead(e: Entry, rest: seq<string>)
    requires WellFormed(e)
    ensures UntrackedPaths(Fields(e) + rest) ==
              (if e.x == '?' && e.y == '?' then [e.path] else []) + UntrackedPaths(rest)
  {
    var fields := Fields(e) + rest;
    assert fields[0][3..] == e.path;
    if e.source.Some? { assert fields[2..] == rest; } else { assert fields[1..] == rest; }
  }

  lemma {:induction false} StreamRead(entries: seq<Entry>)
    requires forall e :: e in entries ==> WellFormed(e)
    ensures UntrackedPaths(Stream(entries)) == Untracked(entries)
  {
    if |entries| > 0 {
      StreamRead(entries[1..]);
      EntryRead(entries[0], Stream(entries[1..]));
    } else {
      assert [""][1..] == [];
    }
  }

  /** From any printed status stream exactly the untracked paths are read, in order: no old path of a
      rename or copy, whatever it looks like, is taken for a record. */
  lemma PorcelainRoundTrip(entries: seq<Entry>)
    requires forall e :: e in entries ==> WellFormed(e)
    ensures UntrackedPaths(Split(Printed(entries), NUL)) == Untracked(entries)
  {
    StreamNonEmpty(entries);
    StreamIsFree(entries);
    SplitJoin(Stream(entries), NUL);
    StreamRead(entries);
  }
}
