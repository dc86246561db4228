/** Text as a sequence of characters: lines, separators and decimal numbers. */
module Text {
  import opened Prelude

  // ----- Splitting and joining -----

  /** What one more character in front makes of the pieces. */
  function Prefixed(c: char, pieces: seq<string>, separator: char): seq<string>
    requires |pieces| > 0
  {
    if c == separator then [""] + pieces else [[c] + pieces[0]] + pieces[1..]
  }

  /** The pieces of `s` between occurrences of `separator`; always at least one. */
  function Split(s: string, separator: char): (pieces: seq<string>)
    ensures |pieces| > 0
  {
    if |s| == 0 then [""]
    else Prefixed(s[0], Split(s[1..], separator), separator)
  }

  function Join(pieces: seq<string>, separator: char): string
    requires |pieces| > 0
  {
    if |pieces| == 1 then pieces[0] else pieces[0] + [separator] + Join(pieces[1..], separator)
  }

  ghost predicate FreeOf(pieces: seq<string>, separator: char) {
    forall i :: 0 <= i < |pieces| ==> separator !in pieces[i]
  }

  lemma {:induction false} SplitPiece(piece: string, s: string, separator: char)
    requires separator !in piece
    ensures Split(piece, separator) == [piece]
    ensures Split(piece + [separator] + s, separator) == [piece] + Split(s, separator)
  {
    if |piece| == 0 {
      assert piece + [separator] + s == [separator] + s;
      assert ([separator] + s)[1..] == s;
    } else {
      var rest := piece[1..];
      SplitPiece(rest, s, separator);
      assert (piece + [separator] + s)[1..] == rest + [separator] + s;
      assert [piece[0]] + rest == piece;
    }
  }

  /** Splitting a joined text gives the pieces back. */
  lemma {:induction false} SplitJoin(pieces: seq<string>, separator: char)
    requires |pieces| > 0 && FreeOf(pieces, separator)
    ensures Split(Join(pieces, separator), separator) == pieces
  {
    if |pieces| == 1 {
      SplitPiece(pieces[0], "", separator);
    } else {
      SplitJoin(pieces[1..], separator);
      SplitPiece(pieces[0], Join(pieces[1..], separator), separator);
      assert [pieces[0]] + pieces[1..] == pieces;
    }
  }

  lemma SplitFirst(c: char, pieces: seq<string>, more: seq<string>, separator: char)
    requires |pieces| > 0
    ensures Prefixed(c, pieces + more, separator) == Prefixed(c, pieces, separator) + more
  {
  }

  /** A text cut after a separator splits into the pieces of both parts. */
  lemma {:induction false} SplitCut(s: string, t: string, separator: char)
    ensures Split(s + [separator] + t, separator) == Split(s, separator) + Split(t, separator)
  {
    if |s| == 0 {
      assert s + [separator] + t == [separator] + t;
      assert ([separator] + t)[1..] == t;
    } else {
      SplitCut(s[1..], t, separator);
      assert (s + [separator] + t)[1..] == s[1..] + [separator] + t;
      SplitFirst(s[0], Split(s[1..], separator), Split(t, separator), separator);
    }
  }

  lemma {:induction false} PiecesAreFree(s: string, separator: char)
    ensures FreeOf(Split(s, separator), separator)
  {
    if |s| > 0 {
      PiecesAreFree(s[1..], separator);
      var rest := Split(s[1..], separator);
      assert separator !in rest[0];
    }
  }

  lemma {:induction false} JoinSplit(s: string, separator: char)
    ensures Join(Split(s, separator), separator) == s
  {
    if |s| > 0 {
      JoinSplit(s[1..], separator);
      var rest := Split(s[1..], separator);
      var pieces := Split(s, separator);
      if s[0] == separator {
        assert pieces[1..] == rest;
      } else if |rest| > 1 {
        assert pieces[1..] == rest[1..];
      }
    }
  }

  /** The pieces of several texts, one text after the other. */
  function SplitAll(texts: seq<string>, separator: char): seq<string> {
    if |texts| == 0 then [] else Split(texts[0], separator) + SplitAll(texts[1..], separator)
  }

  /** A joined text splits into the pieces of all its parts, whatever separators they contain. */
  lemma {:induction false} SplitJoined(texts: seq<string>, separator: char)
    requires |texts| > 0
    ensures Split(Join(texts, separator), separator) == SplitAll(texts, separator)
  {
    if |texts| == 1 {
      assert texts[1..] == [];
      assert Split(texts[0], separator) + [] == Split(texts[0], separator);
    } else {
      SplitJoined(texts[1..], separator);
      SplitCut(texts[0], Join(texts[1..], separator), separator);
    }
  }

  lemma SplitIsInjective(s: string, t: string, separator: char)
    ensures Split(s, separator) == Split(t, separator) <==> s == t
  {
    JoinSplit(s, separator);
    JoinSplit(t, separator);
  }

  lemma OnePiece(s: string, separator: char)
    ensures |Split(s, separator)| == 1 <==> separator !in s
    ensures separator !in s ==> Split(s, separator) == [s]
  {
    if separator !in s { SplitPiece(s, "", separator); }
    PiecesAreFree(s, separator);
    JoinSplit(s, separator);
  }

  /** Two joined texts, taken apart at another separator. */
  lemma CutElsewhere(s: string, t: string, separator: char, q: nat) returns (u: string, v: string)
    requires var all := s + [separator] + t; q < |all| && all[q] == separator && q != |s|
    ensures u + [separator] + v == s + [separator] + t && u != s
    ensures |u| == q && |u| + |v| == |s| + |t|
  {
    var all := s + [separator] + t;
    u, v := all[..q], all[q + 1..];
    assert all == u + [separator] + v;
  }

  /** A text with no separator behind its first character is one piece, or an empty piece and another. */
  lemma LeadingSeparator(s: string, separator: char)
    requires s != "" && separator !in s[1..]
    ensures var pieces := Split(s, separator); |pieces| == 1 || (|pieces| == 2 && pieces[0] == "")
  {
    OnePiece(s[1..], separator);
  }

  /** A text with no separator before its last character is one piece, or one and an empty piece. */
  lemma TrailingSeparator(s: string, separator: char)
    requires s != "" && separator !in s[..|s| - 1]
    ensures var pieces := Split(s, separator); |pieces| == 1 || (|pieces| == 2 && pieces[1] == "")
  {
    var init := s[..|s| - 1];
    if s[|s| - 1] == separator {
      assert s == init + [separator] + "";
      SplitCut(init, "", separator);
      OnePiece(init, separator);
      OnePiece("", separator);
    } else {
      OnePiece(s, separator);
    }
  }

  lemma FirstPieceEmpty(s: string, separator: char)
    requires s != "" && |Split(s, separator)| == 1
    ensures Split(s, separator)[0] != ""
  {
    OnePiece(s, separator);
  }

  // ----- Decimal numbers -----

  predicate IsDigit(c: char) {
    '0' <= c <= '9'
  }

  function Digit(d: nat): char
    requires d < 10
  {
    '0' + d as char
  }

  function Decimal(n: nat): (s: string)
    ensures |s| > 0
  {
    if n < 10 then [Digit(n)] else Decimal(n / 10) + [Digit(n % 10)]
  }

  function Digits(s: string): (n: nat)
    ensures n <= |s|
  {
    if |s| > 0 && IsDigit(s[0]) then 1 + Digits(s[1..]) else 0
  }

  function NumberOf(s: string): nat {
    if |s| == 0 then 0
    else
      var c := s[|s| - 1];
      10 * NumberOf(s[..|s| - 1]) + (if IsDigit(c) then (c - '0') as nat else 0)
  }

  ghost predicate AllDigits(s: string) {
    forall i :: 0 <= i < |s| ==> IsDigit(s[i])
  }

  lemma {:induction false} DecimalReads(n: nat)
    ensures NumberOf(Decimal(n)) == n && AllDigits(Decimal(n))
  {
    if n < 10 {
      assert Decimal(n)[..0] == "";
    } else {
      DecimalReads(n / 10);
      assert Decimal(n)[..|Decimal(n)| - 1] == Decimal(n / 10);
    }
  }

  lemma {:induction false} DigitsStop(s: string, t: string)
    requires AllDigits(s) && (|t| > 0 ==> !IsDigit(t[0]))
    ensures Digits(s + t) == |s|
  {
    if |s| == 0 {
      assert s + t == t;
    } else {
      assert AllDigits(s[1..]);
      DigitsStop(s[1..], t);
      assert (s + t)[1..] == s[1..] + t;
    }
  }

  lemma {:induction false} DigitsAreDigits(s: string)
    ensures AllDigits(s[..Digits(s)])
    ensures Digits(s) < |s| ==> !IsDigit(s[Digits(s)])
  {
    if |s| > 0 && IsDigit(s[0]) {
      DigitsAreDigits(s[1..]);
      forall i | 0 <= i < Digits(s)
        ensures IsDigit(s[i])
      {
        if i > 0 { assert s[1..][..Digits(s[1..])][i - 1] == s[i]; }
      }
    }
  }
}
