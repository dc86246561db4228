/** Exactly when filtering a patch by path is right: for patches whose sections are cut at line feeds, and for
    patches in which other terminators tear them. */
module FilterExactness {
  import opened Prelude
  import opened Text
  import opened PatchParser
  import opened PatchPrinter
  import opened PatchSections
  import opened SectionFilter
  import opened TornReading

  /** Whatever is omitted, the filter removes exactly the files there. */
  ghost predicate AlwaysRight(patch: string) {
    forall omitted :: ParseDiff(OmitPaths(patch, omitted)) == FilesOutside(ParseDiff(patch), omitted)
  }

  /** The same for a text cut into these pieces. */
  ghost predicate RightPieces(pieces: seq<string>) {
    forall omitted :: RightFor(pieces, omitted)
  }

  ghost predicate RightFor(pieces: seq<string>, omitted: set<string>) {
    ParseDiff(Concat(Kept(pieces, omitted))) == FilesOutside(ParseDiff(Concat(pieces)), omitted)
  }

  /** Every file the parser sees goes by the name of one of the pieces. */
  ghost predicate Covered(pieces: seq<string>) {
    forall f :: f in ParseDiff(Concat(pieces)) ==> HasName(pieces, f.path)
  }

  ghost predicate HasName(pieces: seq<string>, path: string) {
    exists piece :: piece in pieces && NameIn(piece) == Some(path)
  }

  lemma KeptByName(piece: string, omitted: set<string>)
    ensures IsKept(piece, omitted) <==> NameIn(piece).None? || NameIn(piece).value !in omitted
    ensures NameIn(piece).None? ==> ParseDiff(piece) == []
  {
    hide ParseDiff;
  }

  lemma {:induction false} KeptWithoutOmission(pieces: seq<string>)
    ensures Kept(pieces, {}) == pieces
  {
    if |pieces| > 0 {
      KeptWithoutOmission(pieces[1..]);
      hide ParseDiff;
    }
  }

  lemma RightPiecesOf(patch: string)
    ensures AlwaysRight(patch) <==> RightPieces(SectionsOf(patch))
  {
    ConcatSections(patch);
    KeptWithoutOmission(SectionsOf(patch));
    NothingOmitted(ParseDiff(patch));
    hide ParseDiff, SectionsOf, Kept, Concat, FilesOutside;
    forall omitted: set<string>
      ensures ParseDiff(OmitPaths(patch, omitted)) == FilesOutside(ParseDiff(patch), omitted)
              <==> RightFor(SectionsOf(patch), omitted)
    {
      if |omitted| == 0 { assert omitted == {}; }
    }
  }

  // ----- Sections of which all that names a file goes by one name -----

  /** All names of the pieces are one, and the pieces without a name name nothing together either. */
  ghost predicate EvenFor(pieces: seq<string>, path: string) {
    && (forall piece :: piece in pieces ==> NameIn(piece) == None || NameIn(piece) == Some(path))
    && (Silent(pieces) == pieces || ParseDiff(Concat(Silent(pieces))) == [])
  }

  ghost predicate Even(pieces: seq<string>) {
    exists path :: EvenFor(pieces, path)
  }

  /** And the last piece has the name only if all have, so that what is kept of the section ends its line. A
      section that is not torn is steady, and so is one torn in two whose second piece goes by the name of the
      first, or by none. */
  ghost predicate Steady(pieces: seq<string>) {
    |pieces| > 0 && Even(pieces) && (Silent(pieces) == [] || NameIn(pieces[|pieces| - 1]).None?)
  }

  lemma SilentOfOne(piece: string)
    ensures Silent([piece]) == if NameIn(piece).None? then [piece] else []
  {
    hide NameIn;
    assert [piece][1..] == [] && [piece] + [] == [piece];
  }

  lemma SingleIsSteady(piece: string)
    ensures Steady([piece])
  {
    SilentOfOne(piece);
    EmptyPatch();
    hide NameIn, Silent, ParseDiff;
    var path := if NameIn(piece).Some? then NameIn(piece).value else "";
    assert EvenFor([piece], path);
  }

  lemma SilentOfTwo(h: string, t: string)
    ensures Silent([h, t]) == if NameIn(h).None? then if NameIn(t).None? then [h, t] else [h]
                              else if NameIn(t).None? then [t] else []
  {
    SilentOfOne(t);
    hide NameIn;
    assert [h, t][1..] == [t];
    assert [h] + [t] == [h, t] && [h] + [] == [h] && [] + [t] == [t];
    assert Silent([h, t]) == (if NameIn(h).None? then [h] else []) + Silent([t]);
  }

  lemma ConcatOne(t: string)
    ensures Concat([t]) == t
  {
    assert [t][1..] == [] && t + "" == t;
  }

  lemma PairIsSteady(h: string, t: string)
    requires NameIn(t).None? || NameIn(t) == NameIn(h)
    ensures Steady([h, t])
  {
    SilentOfTwo(h, t);
    KeptByName(t, {});
    EmptyPatch();
    NothingConcat();
    hide NameIn, Silent, ParseDiff, IsKept, Concat;
    var path := if NameIn(h).Some? then NameIn(h).value else "";
    assert forall piece :: piece in [h, t] ==> piece == h || piece == t;
    ConcatOne(t);
    assert Silent([h, t]) == [h, t] || Silent([h, t]) == [t] || Silent([h, t]) == [];
    assert EvenFor([h, t], path);
  }

  lemma {:induction false} SilentIsAll(pieces: seq<string>)
    ensures |Silent(pieces)| <= |pieces|
    ensures Silent(pieces) == pieces <==> forall piece :: piece in pieces ==> NameIn(piece).None?
  {
    hide NameIn;
    if |pieces| > 0 {
      SilentIsAll(pieces[1..]);
      assert forall piece :: piece in pieces <==> piece == pieces[0] || piece in pieces[1..];
      if NameIn(pieces[0]).None? {
        assert Silent(pieces)[1..] == Silent(pieces[1..]);
        assert Silent(pieces) == pieces <==> Silent(pieces[1..]) == pieces[1..];
      }
    }
  }

  lemma EvenKept(pieces: seq<string>, path: string, omitted: set<string>)
    requires EvenFor(pieces, path)
    ensures Kept(pieces, omitted) == if path in omitted then Silent(pieces) else pieces
  {
    hide NameIn, ParseDiff;
    if path in omitted { SilentKept(pieces, path, omitted); } else { AllKept(pieces, path, omitted); }
  }

  /** Such a section is harmless exactly when its files go by the name of its pieces. */
  lemma CoveredIsHarmless(pieces: seq<string>, path: string)
    requires EvenFor(pieces, path)
    ensures Covered(pieces) <==> HarmlessFor(pieces, path, true)
  {
    SilentIsAll(pieces);
    hide NameIn, ParseDiff, Silent, Concat;
    var files := ParseDiff(Concat(pieces));
    if Covered(pieces) && files != [] {
      assert files[0] in files;
      assert HasName(pieces, files[0].path);
    }
    if HarmlessFor(pieces, path, true) && Silent(pieces) != pieces {
      var piece :| piece in pieces && NameIn(piece).Some?;
      assert HasName(pieces, path);
    }
  }

  /** A file that goes by no name of the pieces survives its omission. */
  lemma UncoveredIsKept(pieces: seq<string>, path: string, f: DiffFile)
    requires EvenFor(pieces, path) && !HasName(pieces, f.path)
    ensures Kept(pieces, {f.path}) == pieces
  {
    EvenKept(pieces, path, {f.path});
    SilentIsAll(pieces);
    hide NameIn, ParseDiff, Silent, Kept, Concat;
    if path == f.path {
      forall piece | piece in pieces
        ensures NameIn(piece).None?
      {
        assert NameIn(piece) != Some(f.path);
      }
    }
  }

  lemma NothingIsRight(omitted: set<string>)
    ensures RightFor([""], omitted)
  {
    EmptyPatch();
    assert IsKept("", omitted);
    ConcatOne("");
    assert [""][1..] == [] && [""] + [] == [""];
    assert Kept([""], omitted) == [""];
    hide ParseDiff, Kept, Concat;
    assert FilesOutside([], omitted) == [];
  }

  lemma RightIsCovered(pieces: seq<string>)
    requires Even(pieces) && RightPieces(pieces)
    ensures Covered(pieces)
  {
    var path :| EvenFor(pieces, path);
    hide ParseDiff, NameIn, Kept, Concat, FilesOutside, EvenFor;
    forall f | f in ParseDiff(Concat(pieces))
      ensures HasName(pieces, f.path)
    {
      if !HasName(pieces, f.path) {
        UncoveredIsKept(pieces, path, f);
        assert RightFor(pieces, {f.path});
        OutsideHasNone(ParseDiff(Concat(pieces)), {f.path});
        assert false;
      }
    }
  }

  /** A section alone, torn or not, is filtered rightly exactly when its files go by the name of its pieces. */
  lemma RightWhenEven(pieces: seq<string>)
    requires Even(pieces) && |pieces| > 0 && (|pieces[|pieces| - 1]| > 0 || pieces == [""])
    ensures RightPieces(pieces) <==> Covered(pieces)
  {
    if RightPieces(pieces) { RightIsCovered(pieces); }
    if Covered(pieces) {
      var path :| EvenFor(pieces, path);
      CoveredIsHarmless(pieces, path);
      forall omitted
        ensures RightFor(pieces, omitted)
      {
        hide EvenFor, HarmlessFor, Covered;
        if pieces == [""] { NothingIsRight(omitted); } else { CoveredIsRight(pieces, path, omitted); }
      }
    }
  }

  lemma CoveredIsRight(pieces: seq<string>, path: string, omitted: set<string>)
    requires HarmlessFor(pieces, path, true) && |pieces| > 0 && |pieces[|pieces| - 1]| > 0
    ensures RightFor(pieces, omitted)
  {
    hide ParseDiff, NameIn, Kept, Concat, FilesOutside, HarmlessFor;
    GroupFiltered(pieces, path, true, omitted);
  }

  // ----- Sections in front of others -----

  lemma SilentEnds(pieces: seq<string>)
    requires LastEnds(pieces) && NameIn(pieces[|pieces| - 1]).None?
    ensures EndsLine(Concat(Silent(pieces)))
  {
    hide Concat, NameIn, Silent;
    SilentLast(pieces);
    ConcatEnds(Silent(pieces));
  }

  lemma SteadyEnds(pieces: seq<string>, path: string, omitted: set<string>)
    requires Steady(pieces) && EvenFor(pieces, path) && LastEnds(pieces)
    ensures EndsLine(Concat(pieces))
    ensures Concat(Kept(pieces, omitted)) == "" || EndsLine(Concat(Kept(pieces, omitted)))
  {
    EvenKept(pieces, path, omitted);
    WholeEnds(pieces);
    NothingConcat();
    if Silent(pieces) != [] { SilentEnds(pieces); }
    hide Kept, Concat, NameIn, EndsLine, Silent, Even, EvenFor;
  }

  lemma WholeEnds(pieces: seq<string>)
    requires LastEnds(pieces)
    ensures EndsLine(Concat(pieces))
  {
    hide Concat;
    ConcatEnds(pieces);
  }

  /** What is kept of both, where what is kept of the first ends its line. */
  lemma KeptOfBoth(head: seq<string>, rest: seq<string>, omitted: set<string>)
    requires EndsLine(Concat(head)) && DIFF_GIT <= Concat(rest) && AllOpen(rest)
    requires Concat(Kept(head, omitted)) == "" || EndsLine(Concat(Kept(head, omitted)))
    ensures ParseDiff(Concat(Kept(head + rest, omitted)))
            == ParseDiff(Concat(Kept(head, omitted))) + ParseDiff(Concat(Kept(rest, omitted)))
    ensures FilesOutside(ParseDiff(Concat(head + rest)), omitted)
            == FilesOutside(ParseDiff(Concat(head)), omitted) + FilesOutside(ParseDiff(Concat(rest)), omitted)
  {
    hide ParseDiff, Kept, Concat, AllOpen, EndsLine, FilesOutside;
    ConcatOpens(rest, omitted);
    KeptConcat(head, rest, omitted);
    ConcatConcat(Kept(head, omitted), Kept(rest, omitted));
    KeptInFront(Concat(Kept(head, omitted)), Concat(Kept(rest, omitted)));
    ConcatConcat(head, rest);
    KeptInFront(Concat(head), Concat(rest));
    OutsideConcat(ParseDiff(Concat(head)), ParseDiff(Concat(rest)), omitted);
  }

  /** A steady section in front: it and what follows are filtered rightly exactly when its files go by the
      name of its pieces and what follows is filtered rightly. */
  lemma RightInFront(head: seq<string>, rest: seq<string>)
    requires Steady(head) && LastEnds(head) && DIFF_GIT <= Concat(rest) && AllOpen(rest)
    ensures RightPieces(head + rest) <==> Covered(head) && RightPieces(rest)
  {
    var path :| EvenFor(head, path);
    CoveredIsHarmless(head, path);
    hide ParseDiff, NameIn, Kept, Concat, FilesOutside, EvenFor, HarmlessFor, Steady, EndsLine, AllOpen;
    if RightPieces(head + rest) {
      forall f | f in ParseDiff(Concat(head))
        ensures HasName(head, f.path)
      {
        if !HasName(head, f.path) {
          UncoveredIsKept(head, path, f);
          SteadyEnds(head, path, {f.path});
          KeptOfBoth(head, rest, {f.path});
          assert RightFor(head + rest, {f.path});
          OutsideHasNone(ParseDiff(Concat(head + rest)), {f.path});
          assert false;
        }
      }
    }
    if Covered(head) {
      forall omitted
        ensures RightFor(head + rest, omitted) <==> RightFor(rest, omitted)
      {
        SteadyEnds(head, path, omitted);
        KeptOfBoth(head, rest, omitted);
        GroupFiltered(head, path, true, omitted);
        SamePrefix(FilesOutside(ParseDiff(Concat(head)), omitted), ParseDiff(Concat(Kept(rest, omitted))),
                   FilesOutside(ParseDiff(Concat(rest)), omitted));
      }
    }
  }

  /** All sections but the last are steady. */
  ghost predicate SteadyInFront(groups: seq<seq<string>>) {
    forall i :: 0 <= i < |groups| - 1 ==> Steady(groups[i])
  }

  ghost predicate CoveredInFront(groups: seq<seq<string>>) {
    forall i :: 0 <= i < |groups| - 1 ==> Covered(groups[i])
  }

  lemma RestStarts(groups: seq<seq<string>>)
    requires Chain(groups) && |groups| > 0
    ensures NoneEmpty(groups[0])
  {
  }

  lemma {:induction false} ChainIsRight(groups: seq<seq<string>>)
    requires |groups| > 0 && Chain(groups) && SteadyInFront(groups)
    ensures RightPieces(Flatten(groups)) <==> CoveredInFront(groups) && RightPieces(groups[|groups| - 1])
  {
    var head, rest := groups[0], groups[1..];
    assert [head] + rest == groups;
    FlattenFirst(head, rest);
    if rest == [] {
      assert Flatten(rest) == [] && head + [] == head;
    } else {
      ChainShrinks(groups);
      assert Steady(head) && SteadyInFront(rest) && rest[|rest| - 1] == groups[|groups| - 1];
      assert NoneEmpty(rest[0]) by { RestStarts(rest); }
      AllOpenBehind(groups);
      hide Chain, NoneEmpty, AllOpen, Steady, RightPieces, Covered, LastEnds, Flatten;
      FlattenOpens(rest);
      ChainIsRight(rest);
      RightInFront(head, Flatten(rest));
      CoveredFirst(groups);
    }
  }

  lemma AllOpenBehind(groups: seq<seq<string>>)
    requires |groups| > 0 && Chain(groups)
    ensures AllOpen(Flatten(groups[1..]))
  {
    hide AllOpen, NoneEmpty, LastEnds;
    FlattenOpensAll(groups[1..]);
  }

  lemma CoveredFirst(groups: seq<seq<string>>)
    requires |groups| > 1
    ensures CoveredInFront(groups) <==> Covered(groups[0]) && CoveredInFront(groups[1..])
  {
    hide Covered;
    assert forall i :: 0 < i < |groups| ==> groups[1..][i - 1] == groups[i];
  }

  // ----- Whole patches -----

  /** The pieces of the last section. */
  function LastOf(groups: seq<seq<string>>): seq<string>
    requires |groups| > 0
  {
    groups[|groups| - 1]
  }

  /** Whatever the last section of a patch is: where all in front of it are steady, the filter is right for the
      patch exactly when the files in front go by the names of their pieces and it is right for the last. */
  lemma RightUpToLast(patch: string)
    requires SteadyInFront(Groups(SectionsOf(patch)))
    ensures AlwaysRight(patch)
            <==> CoveredInFront(Groups(SectionsOf(patch))) && RightPieces(LastOf(Groups(SectionsOf(patch))))
  {
    hide AlwaysRight, RightPieces, Chain, SteadyInFront, Groups, Flatten;
    RightPiecesOf(patch);
    if patch == "" {
      NothingIsOneGroup();
    } else {
      SectionsArePieces(patch);
      GroupsAreChain(SectionsOf(patch));
      ChainIsRight(Groups(SectionsOf(patch)));
    }
  }

  lemma NothingIsOneGroup()
    ensures SectionsOf("") == [""] && Groups(SectionsOf("")) == [[""]]
  {
  }

  lemma LastNotEmpty(patch: string)
    requires patch != ""
    ensures var last := LastOf(Groups(SectionsOf(patch))); |last| > 0 && |last[|last| - 1]| > 0
  {
    SectionsArePieces(patch);
    GroupsAreChain(SectionsOf(patch));
    var groups := Groups(SectionsOf(patch));
    assert NoneEmpty(groups[|groups| - 1]);
    hide Groups, Chain, SectionsOf;
  }

  lemma CoveredOrHarmful(groups: seq<seq<string>>, i: nat)
    requires i < |groups| && SteadyInFront(groups) && Even(LastOf(groups))
    ensures Harmless(groups[i], i == |groups| - 1) <==> Covered(groups[i])
  {
    var group, last := groups[i], i == |groups| - 1;
    assert Even(group) && (last || Steady(group));
    hide ParseDiff, NameIn, Covered, Silent, Concat;
    if Harmless(group, last) {
      var path :| HarmlessFor(group, path, last);
      CoveredIsHarmless(group, path);
    }
    if Covered(group) {
      var path :| EvenFor(group, path);
      CoveredIsHarmless(group, path);
      assert HarmlessFor(group, path, last);
    }
  }

  lemma AllCovered(groups: seq<seq<string>>)
    requires |groups| > 0
    ensures CoveredInFront(groups) && Covered(LastOf(groups)) <==> forall i :: 0 <= i < |groups| ==> Covered(groups[i])
    ensures (forall i :: 0 <= i < |groups| ==> Covered(groups[i])) <==> forall group :: group in groups ==> Covered(group)
  {
    hide Covered;
    if CoveredInFront(groups) && Covered(LastOf(groups)) {
      forall i | 0 <= i < |groups|
        ensures Covered(groups[i])
      {
        if i < |groups| - 1 { assert Covered(groups[i]); }
      }
    }
  }

  /** Where every section, torn or not, goes by one name, the filter is right exactly when its files do. */
  lemma RightWhenSteady(patch: string)
    requires SteadyInFront(Groups(SectionsOf(patch))) && Even(LastOf(Groups(SectionsOf(patch))))
    ensures AlwaysRight(patch) <==> forall group :: group in Groups(SectionsOf(patch)) ==> Covered(group)
    ensures AlwaysRight(patch) <==> Filterable(patch)
  {
    var groups := Groups(SectionsOf(patch));
    hide AlwaysRight, RightPieces, SteadyInFront, Groups, Covered, Even, Harmless;
    RightUpToLast(patch);
    if patch == "" { NothingIsOneGroup(); } else { LastNotEmpty(patch); }
    RightWhenEven(LastOf(groups));
    forall i | 0 <= i < |groups|
      ensures Harmless(groups[i], i == |groups| - 1) <==> Covered(groups[i])
    {
      CoveredOrHarmful(groups, i);
    }
    AllCovered(groups);
  }

  // ----- Patches that are cut at line feeds only -----

  /** The pieces are the sections the parser sees: every cut is behind a line feed. */
  ghost predicate CutAtLines(pieces: seq<string>) {
    forall i :: 0 <= i < |pieces| - 1 ==> EndsLine(pieces[i])
  }

  /** All files of the piece go by its name. */
  ghost predicate OnePath(piece: string) {
    forall f :: f in ParseDiff(piece) ==> NameIn(piece) == Some(f.path)
  }

  lemma OnePathIsCovered(piece: string)
    ensures OnePath(piece) <==> Covered([piece])
  {
    assert [piece][1..] == [] && piece + "" == piece && Concat([piece]) == piece;
    hide ParseDiff, NameIn, Concat;
    assert forall path :: HasName([piece], path) <==> NameIn(piece) == Some(path) by {
      forall path
        ensures HasName([piece], path) <==> NameIn(piece) == Some(path)
      {
        assert piece in [piece];
      }
    }
  }

  lemma {:induction false} GroupsAreSingle(pieces: seq<string>)
    requires |pieces| > 0 && CutAtLines(pieces)
    ensures |Groups(pieces)| == |pieces| && forall i :: 0 <= i < |pieces| ==> Groups(pieces)[i] == [pieces[i]]
  {
    if |pieces| > 1 {
      GroupsAreSingle(pieces[1..]);
      assert EndsLine(pieces[0]);
      hide EndsLine;
    }
  }

  lemma SingleGroups(pieces: seq<string>)
    requires |pieces| > 0 && CutAtLines(pieces)
    ensures |Groups(pieces)| == |pieces| && forall i :: 0 <= i < |pieces| ==> Groups(pieces)[i] == [pieces[i]]
    ensures forall piece :: piece in pieces ==> [piece] in Groups(pieces)
    ensures forall group :: group in Groups(pieces) ==> |group| == 1 && group[0] in pieces && group == [group[0]]
  {
    GroupsAreSingle(pieces);
    hide Groups, CutAtLines;
    forall piece | piece in pieces
      ensures [piece] in Groups(pieces)
    {
      var i :| 0 <= i < |pieces| && pieces[i] == piece;
      assert Groups(pieces)[i] == [piece];
    }
  }

  /** Where sections are only cut at line feeds, as git writes them, the filter is right for all paths
      exactly when no section names two of them. */
  lemma RightAtLines(patch: string)
    requires CutAtLines(SectionsOf(patch))
    ensures AlwaysRight(patch) <==> forall piece :: piece in SectionsOf(patch) ==> OnePath(piece)
    ensures AlwaysRight(patch) <==> Filterable(patch)
  {
    var pieces, groups := SectionsOf(patch), Groups(SectionsOf(patch));
    SingleGroups(pieces);
    hide AlwaysRight, Groups, Covered, Steady, Even, SectionsOf, OnePath, Filterable;
    forall i | 0 <= i < |pieces|
      ensures Steady(groups[i]) && Even(groups[i])
    {
      SingleIsSteady(pieces[i]);
      SteadyIsEven([pieces[i]]);
    }
    forall piece | piece in pieces
      ensures OnePath(piece) <==> Covered([piece])
    {
      OnePathIsCovered(piece);
    }
    RightWhenSteady(patch);
  }

  lemma SteadyIsEven(pieces: seq<string>)
    requires Steady(pieces)
    ensures Even(pieces)
  {
  }

  // ----- Sections torn in two -----

  lemma ConcatTwo(h: string, t: string)
    ensures Concat([h, t]) == h + t && Concat([h]) == h && Concat([t]) == t
  {
    assert [h, t][1..] == [t] && [t][1..] == [] && [h][1..] == [] && Concat([]) == "";
    assert h + (t + "") == h + t && h + "" == h && t + "" == t;
  }

  /** The filter's two choices, taken independently of each other. */
  lemma TwoPieces(h: string, t: string, omitted: set<string>)
    ensures Concat([h, t]) == h + t
    ensures ParseDiff(Concat(Kept([h, t], omitted))) ==
              if IsKept(h, omitted) && IsKept(t, omitted) then ParseDiff(h + t)
              else if IsKept(h, omitted) then ParseDiff(h)
              else if IsKept(t, omitted) then ParseDiff(t)
              else []
  {
    EmptyPatch();
    hide ParseDiff;
    assert [h, t][1..] == [t] && [t][1..] == [] && [h][1..] == [];
    ConcatTwo(h, t);
    assert Kept([t], omitted) == if IsKept(t, omitted) then [t] else [];
    assert Kept([h, t], omitted) == (if IsKept(h, omitted) then [h] else []) + Kept([t], omitted);
    assert [h] + [t] == [h, t] && [h] + [] == [h] && [] + [t] == [t];
  }

  /** The pieces go by two names. */
  predicate TwoNames(h: string, t: string) {
    NameIn(h).Some? && NameIn(t).Some? && NameIn(h) != NameIn(t)
  }

  /** The files go by the names of the pieces; and where those go by two names, the section is read as its first
      piece and then its second, each going by one name. */
  ghost predicate TornInTwo(h: string, t: string) {
    && Covered([h, t])
    && (TwoNames(h, t) ==> ParseDiff(h + t) == ParseDiff(h) + ParseDiff(t) && OnePath(h) && OnePath(t))
  }

  lemma CoveredByTwo(h: string, t: string)
    ensures Concat([h, t]) == h + t
    ensures Covered([h, t])
            <==> forall f :: f in ParseDiff(h + t) ==> NameIn(h) == Some(f.path) || NameIn(t) == Some(f.path)
  {
    TwoPieces(h, t, {});
    hide ParseDiff, NameIn, Concat, Kept;
    assert h in [h, t] && t in [h, t];
    assert forall piece :: piece in [h, t] ==> piece == h || piece == t;
  }

  /** One piece is kept and the other dropped. */
  lemma OneKept(h: string, t: string, omitted: set<string>)
    requires IsKept(h, omitted) != IsKept(t, omitted)
    requires forall f :: f in ParseDiff(h + t) ==> NameIn(h) == Some(f.path) || NameIn(t) == Some(f.path)
    requires TwoNames(h, t) ==> ParseDiff(h) == FilesOutside(ParseDiff(h + t), {NameIn(t).value})
                                && ParseDiff(t) == FilesOutside(ParseDiff(h + t), {NameIn(h).value})
    ensures FilesOutside(ParseDiff(h + t), omitted) == if IsKept(h, omitted) then ParseDiff(h) else ParseDiff(t)
  {
    var files := ParseDiff(h + t);
    KeptByName(h, omitted);
    KeptByName(t, omitted);
    hide ParseDiff, IsKept, NameIn, FilesOutside;
    var dropped, kept := if IsKept(h, omitted) then t else h, if IsKept(h, omitted) then h else t;
    if NameIn(kept).None? {
      NoneAt(files, NameIn(dropped).value, omitted);
    } else {
      SameOutside(files, omitted, {NameIn(dropped).value});
    }
  }

  /** Both pieces are kept, or both are dropped. */
  lemma BothOrNone(h: string, t: string, omitted: set<string>)
    requires IsKept(h, omitted) == IsKept(t, omitted)
    requires forall f :: f in ParseDiff(h + t) ==> NameIn(h) == Some(f.path) || NameIn(t) == Some(f.path)
    ensures FilesOutside(ParseDiff(h + t), omitted) == if IsKept(h, omitted) then ParseDiff(h + t) else []
  {
    var files := ParseDiff(h + t);
    KeptByName(h, omitted);
    KeptByName(t, omitted);
    hide ParseDiff, IsKept, NameIn, FilesOutside;
    if IsKept(h, omitted) {
      NothingOmitted(files);
      SameOutside(files, omitted, {});
    } else {
      AllOmitted(files, omitted);
    }
  }

  lemma TornIsRight(h: string, t: string, omitted: set<string>)
    requires TornInTwo(h, t)
    ensures RightFor([h, t], omitted)
  {
    var files := ParseDiff(h + t);
    CoveredByTwo(h, t);
    if TwoNames(h, t) { ReadApart(h, t); }
    TwoPieces(h, t, omitted);
    KeptByName(h, omitted);
    KeptByName(t, omitted);
    hide ParseDiff, IsKept, NameIn, Concat, Kept, Covered, OnePath, FilesOutside;
    if IsKept(h, omitted) != IsKept(t, omitted) {
      OneKept(h, t, omitted);
    } else {
      BothOrNone(h, t, omitted);
    }
  }

  /** Read one after the other, each piece is what leaving out the other's name leaves. */
  lemma ReadApart(h: string, t: string)
    requires TwoNames(h, t) && ParseDiff(h + t) == ParseDiff(h) + ParseDiff(t) && OnePath(h) && OnePath(t)
    ensures ParseDiff(h) == FilesOutside(ParseDiff(h + t), {NameIn(t).value})
    ensures ParseDiff(t) == FilesOutside(ParseDiff(h + t), {NameIn(h).value})
  {
    var p, q := NameIn(h).value, NameIn(t).value;
    hide ParseDiff, NameIn;
    NoneAt(ParseDiff(h), p, {p});
    NoneAt(ParseDiff(h), p, {q});
    NoneAt(ParseDiff(t), q, {p});
    NoneAt(ParseDiff(t), q, {q});
    OutsideConcat(ParseDiff(h), ParseDiff(t), {p});
    OutsideConcat(ParseDiff(h), ParseDiff(t), {q});
    assert ParseDiff(h) + [] == ParseDiff(h) && [] + ParseDiff(t) == ParseDiff(t);
  }

  lemma RightNamesAll(h: string, t: string)
    requires RightPieces([h, t])
    ensures Covered([h, t])
  {
    CoveredByTwo(h, t);
    hide ParseDiff, IsKept, NameIn, Kept, Concat, FilesOutside, Covered;
    forall f | f in ParseDiff(h + t)
      ensures NameIn(h) == Some(f.path) || NameIn(t) == Some(f.path)
    {
      assert RightFor([h, t], {f.path});
      TwoPieces(h, t, {f.path});
      KeptByName(h, {f.path});
      KeptByName(t, {f.path});
      OutsideHasNone(ParseDiff(h + t), {f.path});
    }
  }

  lemma RightReadsApart(h: string, t: string)
    requires RightPieces([h, t]) && TwoNames(h, t) && DIFF_GIT <= t && OneSection(t)
    ensures ParseDiff(h + t) == ParseDiff(h) + ParseDiff(t) && OnePath(h) && OnePath(t)
  {
    var p, q := NameIn(h).value, NameIn(t).value;
    RightNamesAll(h, t);
    CoveredByTwo(h, t);
    assert RightFor([h, t], {p}) && RightFor([h, t], {q});
    hide ParseDiff, IsKept, NameIn, Kept, Concat, FilesOutside, Covered, RightPieces, OneSection;
    TwoPieces(h, t, {p});
    TwoPieces(h, t, {q});
    KeptByName(h, {p});
    KeptByName(t, {p});
    KeptByName(h, {q});
    KeptByName(t, {q});
    OutsideHasNone(ParseDiff(h + t), {p});
    OutsideHasNone(ParseDiff(h + t), {q});
    ReadInOrder(h, t, p, q);
  }

  lemma RightIsTorn(h: string, t: string)
    requires DIFF_GIT <= t && OneSection(t)
    ensures RightPieces([h, t]) <==> TornInTwo(h, t)
  {
    hide ParseDiff, NameIn, OneSection, Covered, RightFor;
    if TornInTwo(h, t) {
      forall omitted
        ensures RightFor([h, t], omitted)
      {
        TornIsRight(h, t, omitted);
      }
    }
    if RightPieces([h, t]) {
      RightNamesAll(h, t);
      if TwoNames(h, t) { RightReadsApart(h, t); }
    }
  }

  lemma {:induction false} LastIsUncut(s: string)
    requires s != ""
    ensures var pieces := SectionsOf(s); OneSection(pieces[|pieces| - 1])
  {
    if FirstCut(s) < |s| {
      LastIsUncut(s[FirstCut(s)..]);
    } else {
      UncutIsOneSection(s);
    }
    hide OneSection;
  }

  lemma {:induction false} FlattenLast(groups: seq<seq<string>>)
    requires |groups| > 0 && |groups[|groups| - 1]| > 0
    ensures var all, last := Flatten(groups), groups[|groups| - 1]; |all| >= |last| && all[|all| - |last|..] == last
  {
    if |groups| > 1 { FlattenLast(groups[1..]); }
  }

  lemma SecondIsUncut(patch: string, h: string, t: string)
    requires LastOf(Groups(SectionsOf(patch))) == [h, t]
    ensures DIFF_GIT <= t && OneSection(t)
  {
    var pieces := SectionsOf(patch);
    hide OneSection, Chain, Groups, SectionsOf, Flatten, NoneEmpty;
    if patch == "" { NothingIsOneGroup(); }
    SectionsArePieces(patch);
    GroupsAreChain(pieces);
    FlattenLast(Groups(pieces));
    LastIsUncut(patch);
    assert pieces[|pieces| - 2..][1] == pieces[|pieces| - 1];
  }

  /** A patch whose last section is torn in two, behind whatever terminator, with steady sections in front, is
      filtered rightly for all paths exactly when files go by the names of the pieces they are in, and of the
      last section, if its pieces go by two names, the whole is read as one piece and then the other. */
  lemma RightWhenTorn(patch: string, h: string, t: string)
    requires SteadyInFront(Groups(SectionsOf(patch))) && LastOf(Groups(SectionsOf(patch))) == [h, t]
    ensures AlwaysRight(patch) <==> CoveredInFront(Groups(SectionsOf(patch))) && TornInTwo(h, t)
  {
    hide AlwaysRight, RightPieces, SteadyInFront, CoveredInFront, Groups, TornInTwo, OneSection;
    RightUpToLast(patch);
    SecondIsUncut(patch, h, t);
    RightIsTorn(h, t);
  }

  /** Where that section is one file, or none: it goes by the name of one of the two pieces, and the other piece
      goes by the same name or by none. */
  lemma RightForOneFile(patch: string, h: string, t: string)
    requires SteadyInFront(Groups(SectionsOf(patch))) && LastOf(Groups(SectionsOf(patch))) == [h, t]
    requires |ParseDiff(h + t)| <= 1
    ensures AlwaysRight(patch)
            <==> CoveredInFront(Groups(SectionsOf(patch))) && Covered([h, t]) && !TwoNames(h, t)
  {
    hide AlwaysRight, SteadyInFront, CoveredInFront, Groups, Covered, SectionsOf;
    RightWhenTorn(patch, h, t);
    if TwoNames(h, t) {
      assert |ParseDiff(h)| > 0 && |ParseDiff(t)| > 0;
      hide ParseDiff;
      assert |ParseDiff(h) + ParseDiff(t)| > 1;
    }
  }
}
