/** Filtering the sections of a patch by path, and exactly when that is right. The filter cuts the text at
    every `diff --git ` behind a line terminator, and a line feed is only one of four of those, while the
    parser reads lines that end in line feeds. */
module SectionFilter {
  import opened Prelude
  import opened Text
  import opened PatchParser
  import opened PatchPrinter
  import opened PatchSections

  // ----- Cutting and filtering -----

  /** What a multi-line `^` takes for the end of a line. */
  predicate IsTerminator(c: char) {
    c == '\n' || c == '\r' || c == '\U{2028}' || c == '\U{2029}'
  }

  predicate IsCut(s: string, q: nat) {
    0 < q < |s| && IsTerminator(s[q - 1]) && DIFF_GIT <= s[q..]
  }

  function NextCut(s: string, from: nat): (q: nat)
    requires from <= |s|
    ensures from <= q <= |s|
    ensures q < |s| ==> IsCut(s, q)
    ensures forall r :: from <= r < q ==> !IsCut(s, r)
    decreases |s| - from
  {
    if from == |s| || IsCut(s, from) then from else NextCut(s, from + 1)
  }

  function FirstCut(s: string): (q: nat)
    requires |s| > 0
    ensures 0 < q <= |s| && (q < |s| ==> IsCut(s, q))
  {
    NextCut(s, 1)
  }

  function SectionsOf(s: string): (sections: seq<string>)
    ensures |sections| > 0
  {
    if |s| == 0 || FirstCut(s) == |s| then [s] else [s[..FirstCut(s)]] + SectionsOf(s[FirstCut(s)..])
  }

  function Concat(sections: seq<string>): string {
    if |sections| == 0 then "" else sections[0] + Concat(sections[1..])
  }

  predicate IsKept(section: string, omitted: set<string>) {
    var files := ParseDiff(section);
    |files| == 0 || files[0].path !in omitted
  }

  function Kept(sections: seq<string>, omitted: set<string>): seq<string> {
    if |sections| == 0 then []
    else (if IsKept(sections[0], omitted) then [sections[0]] else []) + Kept(sections[1..], omitted)
  }

  function OmitPaths(patch: string, omitted: set<string>): string {
    if |omitted| == 0 then patch else Concat(Kept(SectionsOf(patch), omitted))
  }

  function FilesOutside(files: seq<DiffFile>, omitted: set<string>): seq<DiffFile> {
    if |files| == 0 then []
    else (if files[0].path in omitted then [] else [files[0]]) + FilesOutside(files[1..], omitted)
  }

  // ----- What the pieces of a patch are -----

  /** The path a piece goes by. */
  function NameIn(piece: string): Option<string> {
    var files := ParseDiff(piece);
    if |files| == 0 then None else Some(files[0].path)
  }

  /** The pieces grouped into the sections the parser sees: a piece that does not end its line is
      continued by the next one. */
  function Groups(pieces: seq<string>): (groups: seq<seq<string>>)
    ensures |pieces| > 0 ==> |groups| > 0
  {
    if |pieces| <= 1 then [pieces]
    else
      var rest := Groups(pieces[1..]);
      if EndsLine(pieces[0]) then [[pieces[0]]] + rest else [[pieces[0]] + rest[0]] + rest[1..]
  }

  function Flatten(groups: seq<seq<string>>): seq<string> {
    if |groups| == 0 then [] else groups[0] + Flatten(groups[1..])
  }

  /** The pieces that name no file. */
  function Silent(pieces: seq<string>): seq<string> {
    if |pieces| == 0 then []
    else (if NameIn(pieces[0]).None? then [pieces[0]] else []) + Silent(pieces[1..])
  }

  /** Cutting the section into these pieces does no harm: its files and all pieces that name one go by one
      path, nothing is named by what is left without the latter, and what is left still ends its line,
      unless nothing follows. */
  ghost predicate HarmlessFor(pieces: seq<string>, path: string, last: bool) {
    && (forall piece :: piece in pieces ==> NameIn(piece) == None || NameIn(piece) == Some(path))
    && (forall f :: f in ParseDiff(Concat(pieces)) ==> f.path == path)
    && ParseDiff(Concat(Silent(pieces))) == []
    && (last || Silent(pieces) == [] || NameIn(pieces[|pieces| - 1]).None?)
  }

  ghost predicate Harmless(pieces: seq<string>, last: bool) {
    exists path :: HarmlessFor(pieces, path, last)
  }

  ghost predicate AllHarmless(groups: seq<seq<string>>) {
    forall i :: 0 <= i < |groups| ==> Harmless(groups[i], i == |groups| - 1)
  }

  /** The patches this filter is right for. */
  ghost predicate Filterable(patch: string) {
    AllHarmless(Groups(SectionsOf(patch)))
  }

  lemma {:induction false} ConcatSections(s: string)
    ensures Concat(SectionsOf(s)) == s
  {
    if |s| > 0 && FirstCut(s) < |s| {
      var k := FirstCut(s);
      hide FirstCut;
      ConcatSections(s[k..]);
      var rest := SectionsOf(s[k..]);
      assert ([s[..k]] + rest)[1..] == rest;
      assert s[..k] + s[k..] == s;
    } else {
      assert [s][1..] == [] && s + "" == s;
    }
  }

  lemma {:induction false} OutsideConcat(a: seq<DiffFile>, b: seq<DiffFile>, omitted: set<string>)
    ensures FilesOutside(a + b, omitted) == FilesOutside(a, omitted) + FilesOutside(b, omitted)
  {
    if |a| == 0 {
      assert a + b == b;
    } else {
      assert (a + b)[1..] == a[1..] + b;
      OutsideConcat(a[1..], b, omitted);
    }
  }

  lemma {:induction false} NothingOmitted(files: seq<DiffFile>)
    ensures FilesOutside(files, {}) == files
  {
    if |files| > 0 { NothingOmitted(files[1..]); }
  }


  lemma {:induction false} OutsideHasNone(files: seq<DiffFile>, omitted: set<string>)
    ensures forall f :: f in FilesOutside(files, omitted) ==> f in files && f.path !in omitted
  {
    if |files| > 0 { OutsideHasNone(files[1..], omitted); }
  }

  lemma {:induction false} SameOutside(files: seq<DiffFile>, omitted: set<string>, other: set<string>)
    requires forall f :: f in files ==> (f.path in omitted <==> f.path in other)
    ensures FilesOutside(files, omitted) == FilesOutside(files, other)
  {
    if |files| > 0 {
      assert files[0] in files;
      SameOutside(files[1..], omitted, other);
    }
  }

  lemma {:induction false} AllOmitted(files: seq<DiffFile>, omitted: set<string>)
    requires forall f :: f in files ==> f.path in omitted
    ensures FilesOutside(files, omitted) == []
  {
    if |files| > 0 {
      assert files[0] in files;
      AllOmitted(files[1..], omitted);
    }
  }

  /** Pieces as cutting makes them: none is empty, and all but the first open with `diff --git `. */
  ghost predicate Pieces(pieces: seq<string>) {
    forall i :: 0 <= i < |pieces| ==> |pieces[i]| > 0 && (i > 0 ==> DIFF_GIT <= pieces[i])
  }

  lemma PiecesInFront(first: string, rest: seq<string>)
    requires |first| > 0 && |rest| > 0 && Pieces(rest) && DIFF_GIT <= rest[0]
    ensures Pieces([first] + rest)
  {
    var pieces := [first] + rest;
    assert forall i :: 0 < i < |pieces| ==> pieces[i] == rest[i - 1];
  }

  lemma {:induction false} SectionsArePieces(s: string)
    requires |s| > 0
    ensures Pieces(SectionsOf(s)) && (DIFF_GIT <= s ==> DIFF_GIT <= SectionsOf(s)[0])
  {
    if FirstCut(s) < |s| {
      var k := FirstCut(s);
      assert IsCut(s, k) && |s[..k]| > 0;
      if DIFF_GIT <= s { FirstSectionOpens(s); }
      hide FirstCut, IsCut, Pieces;
      SectionsArePieces(s[k..]);
      PiecesInFront(s[..k], SectionsOf(s[k..]));
    }
  }

  lemma FirstSectionOpens(s: string)
    requires |s| > 0 && DIFF_GIT <= s
    ensures DIFF_GIT <= s[..FirstCut(s)]
  {
  }

  lemma {:induction false} ConcatConcat(a: seq<string>, b: seq<string>)
    ensures Concat(a + b) == Concat(a) + Concat(b)
  {
    if |a| == 0 {
      assert a + b == b;
    } else {
      ConcatConcat(a[1..], b);
      assert (a + b)[1..] == a[1..] + b;
      Regroup(a[0], Concat(a[1..]), Concat(b));
    }
  }

  lemma {:induction false} KeptConcat(a: seq<string>, b: seq<string>, omitted: set<string>)
    ensures Kept(a + b, omitted) == Kept(a, omitted) + Kept(b, omitted)
  {
    hide IsKept;
    if |a| == 0 {
      assert a + b == b;
    } else {
      KeptConcat(a[1..], b, omitted);
      assert (a + b)[1..] == a[1..] + b;
      Regroup(if IsKept(a[0], omitted) then [a[0]] else [], Kept(a[1..], omitted), Kept(b, omitted));
    }
  }

  // ----- Groups are sections of the parser -----

  ghost predicate NoneEmpty(pieces: seq<string>) {
    |pieces| > 0 && forall piece :: piece in pieces ==> |piece| > 0
  }

  ghost predicate AllOpen(pieces: seq<string>) {
    forall piece :: piece in pieces ==> DIFF_GIT <= piece
  }

  predicate LastEnds(pieces: seq<string>) {
    |pieces| > 0 && EndsLine(pieces[|pieces| - 1])
  }

  /** Groups of pieces one after the other, each but the last ending its line. */
  ghost predicate Chain(groups: seq<seq<string>>) {
    && (forall i :: 0 <= i < |groups| ==> NoneEmpty(groups[i]))
    && (forall i :: 0 <= i < |groups| - 1 ==> LastEnds(groups[i]))
    && (forall i :: 0 < i < |groups| ==> AllOpen(groups[i]))
  }

  lemma FlattenFirst(head: seq<string>, rest: seq<seq<string>>)
    ensures Flatten([head] + rest) == head + Flatten(rest)
  {
    assert ([head] + rest)[1..] == rest;
  }

  /** A chain with another group in front. */
  lemma ChainGrows(head: seq<string>, rest: seq<seq<string>>)
    requires Chain(rest) && NoneEmpty(head) && (rest != [] ==> LastEnds(head) && AllOpen(rest[0]))
    ensures Chain([head] + rest)
  {
    hide NoneEmpty, LastEnds, AllOpen;
    var groups := [head] + rest;
    assert forall i :: 0 < i < |groups| ==> groups[i] == rest[i - 1];
  }

  lemma ChainShrinks(groups: seq<seq<string>>)
    requires Chain(groups) && |groups| > 0
    ensures Chain(groups[1..]) && NoneEmpty(groups[0])
    ensures groups[1..] != [] ==> LastEnds(groups[0]) && AllOpen(groups[1..][0])
  {
    hide NoneEmpty, LastEnds, AllOpen;
  }

  lemma PieceInFront(first: string, head: seq<string>)
    requires |first| > 0 && NoneEmpty(head)
    ensures NoneEmpty([first] + head) && NoneEmpty([first])
    ensures LastEnds([first] + head) == LastEnds(head) && LastEnds([first]) == EndsLine(first)
    ensures AllOpen([first] + head) <==> DIFF_GIT <= first && AllOpen(head)
  {
    var all := [first] + head;
    assert all[|all| - 1] == head[|head| - 1];
    assert all[0] == first && forall i :: 0 <= i < |head| ==> all[i + 1] == head[i];
    hide EndsLine;
    assert first in all && forall piece :: piece in head ==> piece in all;
  }

  lemma {:induction false} GroupsAreChain(pieces: seq<string>)
    requires |pieces| > 0 && Pieces(pieces)
    ensures Chain(Groups(pieces)) && Flatten(Groups(pieces)) == pieces
    ensures DIFF_GIT <= pieces[0] ==> AllOpen(Groups(pieces)[0])
  {
    if |pieces| == 1 {
      assert Groups(pieces)[1..] == [] && pieces + [] == pieces;
      assert NoneEmpty(pieces);
    } else {
      var first, rest := pieces[0], Groups(pieces[1..]);
      GroupsAreChain(pieces[1..]);
      assert DIFF_GIT <= pieces[1..][0];
      assert [first] + pieces[1..] == pieces;
      assert rest == [rest[0]] + rest[1..];
      ChainShrinks(rest);
      PieceInFront(first, rest[0]);
      FlattenFirst(rest[0], rest[1..]);
      FlattenFirst([first] + rest[0], rest[1..]);
      FlattenFirst([first], rest);
      Regroup([first], rest[0], Flatten(rest[1..]));
      hide Chain, EndsLine, Flatten, NoneEmpty, LastEnds, AllOpen;
      if EndsLine(first) { ChainGrows([first], rest); } else { ChainGrows([first] + rest[0], rest[1..]); }
    }
  }

  lemma {:induction false} ConcatEnds(pieces: seq<string>)
    requires |pieces| > 0 && |pieces[|pieces| - 1]| > 0
    ensures EndsLine(Concat(pieces)) == EndsLine(pieces[|pieces| - 1])
  {
    if |pieces| == 1 {
      assert pieces[1..] == [];
    } else {
      ConcatEnds(pieces[1..]);
      assert |Concat(pieces[1..])| > 0 by { SomeText(pieces[1..]); }
    }
  }

  lemma {:induction false} SomeText(pieces: seq<string>)
    requires |pieces| > 0 && |pieces[|pieces| - 1]| > 0
    ensures |Concat(pieces)| > 0
  {
    if |pieces| > 1 { SomeText(pieces[1..]); }
  }

  lemma {:induction false} FlattenOpens(groups: seq<seq<string>>)
    requires |groups| > 0 && NoneEmpty(groups[0]) && AllOpen(groups[0])
    ensures DIFF_GIT <= Concat(Flatten(groups))
  {
    var pieces := Flatten(groups);
    assert pieces[0] == groups[0][0] && pieces[0] in groups[0];
  }

  // ----- What is kept of one group -----

  lemma {:induction false} AllKept(pieces: seq<string>, path: string, omitted: set<string>)
    requires path !in omitted && forall piece :: piece in pieces ==> NameIn(piece) == None || NameIn(piece) == Some(path)
    ensures Kept(pieces, omitted) == pieces
  {
    hide ParseDiff;
    if |pieces| > 0 {
      assert pieces[0] in pieces;
      AllKept(pieces[1..], path, omitted);
      assert [pieces[0]] + pieces[1..] == pieces;
    }
  }

  lemma {:induction false} SilentKept(pieces: seq<string>, path: string, omitted: set<string>)
    requires path in omitted && forall piece :: piece in pieces ==> NameIn(piece) == None || NameIn(piece) == Some(path)
    ensures Kept(pieces, omitted) == Silent(pieces)
  {
    hide ParseDiff;
    if |pieces| > 0 {
      assert pieces[0] in pieces;
      SilentKept(pieces[1..], path, omitted);
    }
  }

  lemma {:induction false} NoneAt(files: seq<DiffFile>, path: string, omitted: set<string>)
    requires forall f :: f in files ==> f.path == path
    ensures FilesOutside(files, omitted) == if path in omitted then [] else files
  {
    if |files| > 0 {
      assert files[0] in files;
      NoneAt(files[1..], path, omitted);
      assert [files[0]] + files[1..] == files;
    }
  }

  lemma {:induction false} SilentLast(pieces: seq<string>)
    requires |pieces| > 0 && NameIn(pieces[|pieces| - 1]).None?
    ensures |Silent(pieces)| > 0 && Silent(pieces)[|Silent(pieces)| - 1] == pieces[|pieces| - 1]
  {
    hide NameIn;
    if |pieces| > 1 { SilentLast(pieces[1..]); } else { assert pieces[1..] == []; }
  }

  lemma NothingConcat()
    ensures Concat([]) == ""
  {
  }

  /** A harmless group whose path is omitted leaves no file, and what is left of it still ends its line. */
  lemma GroupDropped(pieces: seq<string>, path: string, last: bool, omitted: set<string>)
    requires HarmlessFor(pieces, path, last) && |pieces| > 0 && |pieces[|pieces| - 1]| > 0 && path in omitted
    ensures Kept(pieces, omitted) == Silent(pieces)
    ensures !last && EndsLine(pieces[|pieces| - 1]) ==> Concat(Silent(pieces)) == "" || EndsLine(Concat(Silent(pieces)))
  {
    SilentKept(pieces, path, omitted);
    hide ParseDiff, FilesOutside, Kept, Concat, NameIn, EndsLine, Silent;
    if Silent(pieces) == [] {
      NothingConcat();
    } else if !last {
      SilentLast(pieces);
      ConcatEnds(Silent(pieces));
    }
  }

  /** A harmless group is filtered as its files are, and what is kept of it still ends its line. */
  lemma GroupFiltered(pieces: seq<string>, path: string, last: bool, omitted: set<string>)
    requires HarmlessFor(pieces, path, last) && |pieces| > 0 && |pieces[|pieces| - 1]| > 0
    ensures var kept := Concat(Kept(pieces, omitted));
            && ParseDiff(kept) == FilesOutside(ParseDiff(Concat(pieces)), omitted)
            && (!last && EndsLine(pieces[|pieces| - 1]) ==> kept == "" || EndsLine(kept))
  {
    var files := ParseDiff(Concat(pieces));
    NoneAt(files, path, omitted);
    hide ParseDiff, FilesOutside, Kept, Concat, NameIn, EndsLine, Silent;
    if path in omitted {
      GroupDropped(pieces, path, last, omitted);
    } else {
      AllKept(pieces, path, omitted);
      ConcatEnds(pieces);
    }
  }

  // ----- The filter is right on filterable patches -----

  /** A text with a section kept, dropped or cut short in front of what is kept of the rest. */
  lemma KeptInFront(head: string, rest: string)
    requires (head == "" || EndsLine(head)) && (rest == "" || DIFF_GIT <= rest)
    ensures ParseDiff(head + rest) == ParseDiff(head) + ParseDiff(rest)
  {
    hide ParseDiff;
    EmptyPatch();
    assert head + "" == head && "" + rest == rest;
    if rest != "" { ParseDistributes(head, rest); }
  }

  lemma RestOfChain(groups: seq<seq<string>>)
    requires |groups| > 1 && Chain(groups) && AllHarmless(groups)
    ensures Chain(groups[1..]) && AllHarmless(groups[1..]) && AllOpen(Flatten(groups[1..]))
  {
    hide Harmless, AllOpen, NoneEmpty, LastEnds;
    FlattenOpensAll(groups[1..]);
  }

  lemma {:induction false} FlattenOpensAll(groups: seq<seq<string>>)
    requires forall i :: 0 <= i < |groups| ==> AllOpen(groups[i])
    ensures AllOpen(Flatten(groups))
  {
    if |groups| > 0 {
      FlattenOpensAll(groups[1..]);
      assert AllOpen(groups[0]);
    }
  }

  lemma {:induction false} ConcatOpens(sections: seq<string>, omitted: set<string>)
    requires AllOpen(sections)
    ensures Concat(Kept(sections, omitted)) == "" || DIFF_GIT <= Concat(Kept(sections, omitted))
  {
    hide IsKept;
    if |sections| > 0 {
      var rest := Kept(sections[1..], omitted);
      assert sections[0] in sections && forall piece :: piece in sections[1..] ==> piece in sections;
      ConcatOpens(sections[1..], omitted);
      assert ([sections[0]] + rest)[1..] == rest;
      assert [] + rest == rest;
    }
  }

  /** What holds of a group and of all groups behind it holds of both together. */
  lemma FilteredInFront(head: seq<string>, rest: seq<string>, omitted: set<string>)
    requires EndsLine(Concat(head)) && DIFF_GIT <= Concat(rest) && AllOpen(rest)
    requires Concat(Kept(head, omitted)) == "" || EndsLine(Concat(Kept(head, omitted)))
    requires ParseDiff(Concat(Kept(head, omitted))) == FilesOutside(ParseDiff(Concat(head)), omitted)
    requires ParseDiff(Concat(Kept(rest, omitted))) == FilesOutside(ParseDiff(Concat(rest)), omitted)
    ensures ParseDiff(Concat(Kept(head + rest, omitted))) == FilesOutside(ParseDiff(Concat(head + rest)), omitted)
  {
    hide ParseDiff, Kept, Concat, AllOpen, EndsLine, FilesOutside;
    ConcatOpens(rest, omitted);
    var kept, others := Concat(Kept(head, omitted)), Concat(Kept(rest, omitted));
    assert Concat(Kept(head + rest, omitted)) == kept + others by {
      KeptConcat(head, rest, omitted);
      ConcatConcat(Kept(head, omitted), Kept(rest, omitted));
    }
    assert ParseDiff(kept + others) == ParseDiff(kept) + ParseDiff(others) by { KeptInFront(kept, others); }
    assert Concat(head + rest) == Concat(head) + Concat(rest) by { ConcatConcat(head, rest); }
    assert ParseDiff(Concat(head) + Concat(rest)) == ParseDiff(Concat(head)) + ParseDiff(Concat(rest)) by {
      KeptInFront(Concat(head), Concat(rest));
    }
    OutsideConcat(ParseDiff(Concat(head)), ParseDiff(Concat(rest)), omitted);
  }

  lemma {:induction false} ChainFiltered(groups: seq<seq<string>>, omitted: set<string>)
    requires |groups| > 0 && Chain(groups) && AllHarmless(groups)
    ensures ParseDiff(Concat(Kept(Flatten(groups), omitted))) == FilesOutside(ParseDiff(Concat(Flatten(groups))), omitted)
  {
    var head := groups[0];
    assert Harmless(head, |groups| == 1);
    var path :| HarmlessFor(head, path, |groups| == 1);
    assert NoneEmpty(head) && head[|head| - 1] in head;
    GroupFiltered(head, path, |groups| == 1, omitted);
    if |groups| == 1 {
      assert groups[1..] == [] && head + [] == head;
    } else {
      RestOfChain(groups);
      assert LastEnds(head) && NoneEmpty(groups[1]) && AllOpen(groups[1]);
      ConcatEnds(head);
      hide ParseDiff, Chain, AllHarmless, Harmless, HarmlessFor, Kept, Concat, NoneEmpty, AllOpen;
      FlattenOpens(groups[1..]);
      ChainFiltered(groups[1..], omitted);
      FilteredInFront(head, Flatten(groups[1..]), omitted);
    }
  }

  /** Omitting paths removes exactly the files at those paths and leaves every other file as it was, also
      where sections are cut in the middle of a line, as long as that does no harm. */
  lemma OmitRemovesExactly(patch: string, omitted: set<string>)
    requires Filterable(patch)
    ensures ParseDiff(OmitPaths(patch, omitted)) == FilesOutside(ParseDiff(patch), omitted)
  {
    if |omitted| == 0 {
      NothingOmitted(ParseDiff(patch));
    } else if patch == "" {
      EmptyPatch();
      assert IsKept("", omitted);
      hide ParseDiff, IsKept;
      assert SectionsOf("") == [""] && [""][1..] == [] && "" + "" == "";
      assert Kept([""], omitted) == [""];
    } else {
      hide ParseDiff, Kept, Harmless;
      SectionsArePieces(patch);
      ConcatSections(patch);
      GroupsAreChain(SectionsOf(patch));
      ChainFiltered(Groups(SectionsOf(patch)), omitted);
    }
  }
}
