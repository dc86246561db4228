/** Paths in patch headers: the quoting this program writes and the C-style quoting it reads. */
module GitPaths {
  import opened Prelude
  import opened Utf8

  /** A UTF-16 code unit; the runtime's strings are sequences of these. */
  type Unit = u: int | 0 <= u < 0x1_0000

  function CharUnits(c: char): (units: seq<Unit>)
    ensures 1 <= |units| <= 2
  {
    var n := c as int;
    if n < 0x1_0000 then [n] else [0xD800 + (n - 0x1_0000) / 0x400, 0xDC00 + (n - 0x1_0000) % 0x400]
  }

  function Units(s: string): seq<Unit> {
    if |s| == 0 then [] else CharUnits(s[0]) + Units(s[1..])
  }

  /** The bytes of one code unit on its own: half a surrogate pair is not a character. */
  function UnitBytes(u: Unit): Bytes {
    if 0xD800 <= u < 0xE000 then EncodeChar(REPLACEMENT) else EncodeChar(u as char)
  }

  // ----- Reading -----

  const BACKSLASH: Unit := 92

  predicate IsOctal(u: Unit) {
    48 <= u <= 55
  }

  predicate OctalAhead(units: seq<Unit>) {
    |units| >= 4 && IsOctal(units[1]) && IsOctal(units[2]) && IsOctal(units[3])
  }

  /** Three octal digits as the byte a buffer makes of them. */
  function OctalValue(units: seq<Unit>): Byte
    requires OctalAhead(units)
  {
    (units[1] - 48) % 4 * 64 + (units[2] - 48) * 8 + (units[3] - 48)
  }

  function NamedEscape(u: Unit): Bytes {
    if u == 97 then [7]
    else if u == 98 then [8]
    else if u == 102 then [12]
    else if u == 110 then [10]
    else if u == 114 then [13]
    else if u == 116 then [9]
    else if u == 118 then [11]
    else UnitBytes(u)
  }

  /** The bytes of a quoted name from some place on; the last unit is taken for the closing quote. */
  function Unescaped(units: seq<Unit>): Bytes
    decreases |units|
  {
    if |units| <= 1 then []
    else if units[0] != BACKSLASH then UnitBytes(units[0]) + Unescaped(units[1..])
    else if OctalAhead(units) then [OctalValue(units)] + Unescaped(units[4..])
    else NamedEscape(units[1]) + Unescaped(units[2..])
  }

  function Unquote(quoted: string): string {
    var units := Units(quoted);
    Decode(Unescaped(if |units| > 0 then units[1..] else units))
  }

  /** The path on a `---` or `+++` line, or None for the null device. */
  function ParseMarkerPath(raw: string, prefix: string): Option<string> {
    if raw == "/dev/null" then None
    else
      var path := if |raw| > 0 && raw[0] == '"' then Unquote(raw) else raw;
      Some(if prefix <= path then path[|prefix|..] else path)
  }

  /** The loop that decodes a quoted name. */
  method UnquoteGitPath(quoted: string) returns (path: string)
    ensures path == Unquote(quoted)
  {
    hide NamedEscape, UnitBytes, OctalValue, Units, Decode;
    var units := Units(quoted);
    var bytes: Bytes := [];
    var index := 1;
    while index < |units| - 1
      invariant 1 <= index && (index <= |units| || |units| == 0)
      invariant |units| == 0 ==> bytes == []
      invariant |units| > 0 ==> bytes + Unescaped(units[index..]) == Unescaped(units[1..])
    {
      var rest := units[index..];
      if rest[0] != BACKSLASH {
        bytes := bytes + UnitBytes(rest[0]);
        index := index + 1;
        assert rest[1..] == units[index..];
      } else if OctalAhead(rest) {
        bytes := bytes + [OctalValue(rest)];
        index := index + 4;
        assert rest[4..] == units[index..];
      } else {
        bytes := bytes + NamedEscape(rest[1]);
        index := index + 2;
        assert rest[2..] == units[index..];
      }
    }
    if |units| > 0 {
      assert Unescaped(units[index..]) == [];
      assert bytes + [] == bytes;
      assert bytes == Unescaped(units[1..]);
    } else {
      assert bytes == Unescaped(units);
    }
    path := Decode(bytes);
  }

  // ----- Writing -----

  predicate IsPlain(b: Byte) {
    32 < b < 127 && b != 34 && b != 92
  }

  function OctalDigits(b: Byte): string {
    ['0' + (b / 64) as char, '0' + (b / 8 % 8) as char, '0' + (b % 8) as char]
  }

  function Escape(b: Byte): string {
    if IsPlain(b) then [b as char] else ['\\'] + OctalDigits(b)
  }

  function Escaped(bytes: Bytes): string {
    if |bytes| == 0 then "" else Escaped(bytes[..|bytes| - 1]) + Escape(bytes[|bytes| - 1])
  }

  predicate AllPlain(bytes: Bytes) {
    forall i :: 0 <= i < |bytes| ==> IsPlain(bytes[i])
  }

  function QuotePatchPath(prefix: char, path: string): string {
    var name := [prefix, '/'] + path;
    if AllPlain(Encode(name)) then Decode(Encode(name)) else ['"'] + Escaped(Encode(name)) + ['"']
  }

  /** The loop that writes a name, quoting it as soon as one byte calls for it. */
  method WritePatchPath(prefix: char, path: string) returns (quoted: string)
    ensures quoted == QuotePatchPath(prefix, path)
  {
    hide Encode, Decode, IsPlain, Escape;
    var bytes := Encode([prefix, '/'] + path);
    if AllPlain(bytes) { return Decode(bytes); }
    quoted := ['"'];
    for i := 0 to |bytes|
      invariant quoted == ['"'] + Escaped(bytes[..i])
    {
      assert bytes[..i + 1][..i] == bytes[..i];
      quoted := quoted + Escape(bytes[i]);
    }
    assert bytes[..|bytes|] == bytes;
    quoted := quoted + ['"'];
  }

  // ----- How a quoted name may be spelled -----

  /** One character of a quoted name: raw, byte by byte in octal, or by its letter. */
  datatype Spelling = Raw(c: char) | Octal(c: char) | Named(c: char)

  predicate HasLetter(c: char) {
    7 <= c as int <= 13 || c == '"' || c == '\\'
  }

  function Letter(c: char): char
    requires HasLetter(c)
  {
    match c as int
    case 7 => 'a'
    case 8 => 'b'
    case 9 => 't'
    case 10 => 'n'
    case 11 => 'v'
    case 12 => 'f'
    case 13 => 'r'
    case _ => c
  }

  predicate Legible(p: Spelling) {
    && (p.Raw? ==> p.c != '\\')
    && (p.Named? ==> HasLetter(p.c))
  }

  function InOctal(bytes: Bytes): string {
    if |bytes| == 0 then "" else ['\\'] + OctalDigits(bytes[0]) + InOctal(bytes[1..])
  }

  function Spelled(p: Spelling): string
    requires Legible(p)
  {
    match p
    case Raw(c) => [c]
    case Octal(c) => InOctal(EncodeChar(c))
    case Named(c) => ['\\', Letter(c)]
  }

  ghost predicate AllLegible(spellings: seq<Spelling>) {
    forall p :: p in spellings ==> Legible(p)
  }

  function SpelledName(spellings: seq<Spelling>): string
    requires AllLegible(spellings)
  {
    if |spellings| == 0 then "" else Spelled(spellings[0]) + SpelledName(spellings[1..])
  }

  function NameOf(spellings: seq<Spelling>): string {
    if |spellings| == 0 then "" else [spellings[0].c] + NameOf(spellings[1..])
  }

  /** A character outside the basic plane, written raw, is taken apart into its two code units. */
  predicate TornApart(p: Spelling) {
    p.Raw? && p.c as int >= 0x1_0000
  }

  function ReadAs(spellings: seq<Spelling>): string {
    if |spellings| == 0 then ""
    else (if TornApart(spellings[0]) then [REPLACEMENT, REPLACEMENT] else [spellings[0].c]) + ReadAs(spellings[1..])
  }

  lemma UnitsCons(c: char, s: string)
    ensures Units([c] + s) == CharUnits(c) + Units(s)
    ensures c as int < 0x1_0000 ==> Units([c] + s) == [c as int] + Units(s)
  {
    assert ([c] + s)[1..] == s;
  }

  lemma {:induction false} UnitsConcat(s: string, t: string)
    ensures Units(s + t) == Units(s) + Units(t)
  {
    hide CharUnits;
    if |s| == 0 {
      assert s + t == t;
    } else {
      UnitsConcat(s[1..], t);
      assert (s + t)[1..] == s[1..] + t;
      Regroup(CharUnits(s[0]), Units(s[1..]), Units(t));
    }
  }

  lemma OctalUnits(b: Byte)
    ensures Units(['\\'] + OctalDigits(b)) == [BACKSLASH, 48 + b / 64, 48 + b / 8 % 8, 48 + b % 8]
  {
    var d := OctalDigits(b);
    UnitsCons('\\', d);
    UnitsCons(d[0], [d[1], d[2]]);
    UnitsCons(d[1], [d[2]]);
    UnitsCons(d[2], "");
    assert d == [d[0]] + [d[1], d[2]] && [d[1], d[2]] == [d[1]] + [d[2]] && [d[2]] == [d[2]] + "";
  }

  lemma OctalValueOf(b: Byte)
    ensures var x, y, z := 48 + b / 64, 48 + b / 8 % 8, 48 + b % 8;
            && IsOctal(x) && IsOctal(y) && IsOctal(z)
            && (x - 48) % 4 * 64 + (y - 48) * 8 + (z - 48) == b
  {
  }

  lemma OctalStep(x: Unit, y: Unit, z: Unit, rest: seq<Unit>)
    requires IsOctal(x) && IsOctal(y) && IsOctal(z) && |rest| > 0
    ensures Unescaped([BACKSLASH, x, y, z] + rest) == [(x - 48) % 4 * 64 + (y - 48) * 8 + (z - 48)] + Unescaped(rest)
  {
    var units: seq<Unit> := [BACKSLASH, x, y, z] + rest;
    assert units[1] == x && units[2] == y && units[3] == z && units[4..] == rest;
    hide NamedEscape, UnitBytes;
    assert OctalAhead(units);
    assert OctalValue(units) == (x - 48) % 4 * 64 + (y - 48) * 8 + (z - 48);
    hide OctalAhead, OctalValue;
    assert Unescaped(units) == [OctalValue(units)] + Unescaped(units[4..]);
  }

  lemma OctalReadAs(units: seq<Unit>, x: Unit, y: Unit, z: Unit, value: Byte, rest: seq<Unit>)
    requires units == [BACKSLASH, x, y, z] && IsOctal(x) && IsOctal(y) && IsOctal(z) && |rest| > 0
    requires value == (x - 48) % 4 * 64 + (y - 48) * 8 + (z - 48)
    ensures Unescaped(units + rest) == [value] + Unescaped(rest)
  {
    hide Unescaped, IsOctal;
    OctalStep(x, y, z, rest);
  }

  lemma OctalRead(b: Byte, rest: seq<Unit>)
    requires |rest| > 0
    ensures Unescaped(Units(['\\'] + OctalDigits(b)) + rest) == [b] + Unescaped(rest)
  {
    var x, y, z := 48 + b / 64, 48 + b / 8 % 8, 48 + b % 8;
    var units := Units(['\\'] + OctalDigits(b));
    OctalUnits(b);
    OctalValueOf(b);
    hide OctalDigits, Units, Unescaped, IsOctal;
    OctalReadAs(units, x, y, z, b, rest);
  }

  lemma {:induction false} OctalsRead(bytes: Bytes, rest: seq<Unit>)
    requires |rest| > 0
    ensures Unescaped(Units(InOctal(bytes)) + rest) == bytes + Unescaped(rest)
  {
    hide Unescaped, OctalDigits, Units;
    if |bytes| == 0 {
      NoUnits(rest);
      assert [] + Unescaped(rest) == Unescaped(rest);
    } else {
      var first, others := ['\\'] + OctalDigits(bytes[0]), InOctal(bytes[1..]);
      UnitsConcat(first, others);
      Regroup(Units(first), Units(others), rest);
      OctalsRead(bytes[1..], rest);
      OctalRead(bytes[0], Units(others) + rest);
      Regroup([bytes[0]], bytes[1..], Unescaped(rest));
      assert [bytes[0]] + bytes[1..] == bytes;
    }
  }

  lemma NoUnits(rest: seq<Unit>)
    ensures Units("") + rest == rest
  {
  }

  lemma LetterUnits(c: char)
    requires HasLetter(c)
    ensures Units(['\\', Letter(c)]) == [BACKSLASH, Letter(c) as int]
    ensures Letter(c) as int < 128 && !IsOctal(Letter(c) as int) && NamedEscape(Letter(c) as int) == EncodeChar(c)
  {
    UnitsCons('\\', [Letter(c)]);
    UnitsCons(Letter(c), "");
    assert ['\\', Letter(c)] == ['\\'] + [Letter(c)] && [Letter(c)] == [Letter(c)] + "";
  }

  lemma NamedRead(c: char, rest: seq<Unit>)
    requires HasLetter(c) && |rest| > 0
    ensures Unescaped(Units(['\\', Letter(c)]) + rest) == EncodeChar(c) + Unescaped(rest)
  {
    LetterUnits(c);
    hide NamedEscape, Letter, HasLetter, Units, EncodeChar;
    var units: seq<Unit> := [BACKSLASH, Letter(c) as int] + rest;
    assert units[2..] == rest;
  }

  lemma ReplacementTwice()
    ensures Encode([REPLACEMENT, REPLACEMENT]) == EncodeChar(REPLACEMENT) + EncodeChar(REPLACEMENT)
  {
    hide EncodeChar;
    EncodeNothing();
    assert [REPLACEMENT, REPLACEMENT][1..] == [REPLACEMENT] && [REPLACEMENT][1..] == "";
    assert EncodeChar(REPLACEMENT) + [] == EncodeChar(REPLACEMENT);
  }

  lemma RawUnits(c: char)
    ensures Units([c]) == CharUnits(c)
  {
    UnitsCons(c, "");
    assert [c] + "" == [c];
  }

  lemma UnitsAreBytes(c: char)
    ensures c as int < 0x1_0000 ==> CharUnits(c) == [c as int] && UnitBytes(c as int) == EncodeChar(c)
    ensures c as int >= 0x1_0000 ==>
              && |CharUnits(c)| == 2 && CharUnits(c)[0] != BACKSLASH && CharUnits(c)[1] != BACKSLASH
              && UnitBytes(CharUnits(c)[0]) == EncodeChar(REPLACEMENT) && UnitBytes(CharUnits(c)[1]) == EncodeChar(REPLACEMENT)
  {
    hide EncodeChar;
  }

  /** A unit that is no backslash is read as its bytes. */
  lemma PlainUnit(u: Unit, rest: seq<Unit>)
    requires u != BACKSLASH && |rest| > 0
    ensures Unescaped([u] + rest) == UnitBytes(u) + Unescaped(rest)
  {
    hide UnitBytes, NamedEscape, OctalAhead, OctalValue;
    assert ([u] + rest)[1..] == rest;
  }

  /** Two units that are each read as a replacement character. */
  lemma TornUnits(first: Unit, second: Unit, rest: seq<Unit>)
    requires first != BACKSLASH && second != BACKSLASH && |rest| > 0
    requires UnitBytes(first) == EncodeChar(REPLACEMENT) && UnitBytes(second) == EncodeChar(REPLACEMENT)
    ensures Unescaped([first, second] + rest) == Encode([REPLACEMENT, REPLACEMENT]) + Unescaped(rest)
  {
    ReplacementTwice();
    hide EncodeChar, Encode, UnitBytes, Unescaped;
    PlainUnit(first, [second] + rest);
    PlainUnit(second, rest);
    assert [first] + ([second] + rest) == [first, second] + rest;
    Regroup(EncodeChar(REPLACEMENT), EncodeChar(REPLACEMENT), Unescaped(rest));
  }

  lemma RawRead(c: char, rest: seq<Unit>)
    requires c != '\\' && |rest| > 0
    ensures Unescaped(Units([c]) + rest) == (if c as int < 0x1_0000 then EncodeChar(c) else Encode([REPLACEMENT, REPLACEMENT]))
                                           + Unescaped(rest)
  {
    RawUnits(c);
    UnitsAreBytes(c);
    hide EncodeChar, Encode, UnitBytes, CharUnits, Units, Unescaped;
    if c as int < 0x1_0000 {
      PlainUnit(c as int, rest);
    } else {
      TornUnits(CharUnits(c)[0], CharUnits(c)[1], rest);
      assert CharUnits(c) == [CharUnits(c)[0], CharUnits(c)[1]];
    }
  }

  /** One spelled character is read as itself, or torn apart. */
  lemma SpellingRead(p: Spelling, rest: seq<Unit>)
    requires Legible(p) && |rest| > 0
    ensures Unescaped(Units(Spelled(p)) + rest) == Encode(ReadAs([p])) + Unescaped(rest)
  {
    ReadAsOne(p);
    hide Encode, EncodeChar, Unescaped, Units, ReadAs, Letter;
    match p
    case Raw(c) => RawRead(c, rest);
    case Octal(c) => OctalsRead(EncodeChar(c), rest);
    case Named(c) => NamedRead(c, rest);
  }

  lemma ReadAsOne(p: Spelling)
    ensures Encode(ReadAs([p])) == if TornApart(p) then Encode([REPLACEMENT, REPLACEMENT]) else EncodeChar(p.c)
  {
    hide EncodeChar;
    assert [p][1..] == [];
    assert ReadAs([p]) == if TornApart(p) then [REPLACEMENT, REPLACEMENT] else [p.c];
    assert Encode([p.c]) == EncodeChar(p.c) + Encode([]);
  }

  lemma {:induction false} EncodeConcat(s: string, t: string)
    ensures Encode(s + t) == Encode(s) + Encode(t)
  {
    hide EncodeChar;
    if |s| == 0 {
      assert s + t == t;
    } else {
      EncodeConcat(s[1..], t);
      assert (s + t)[1..] == s[1..] + t;
      Regroup(EncodeChar(s[0]), Encode(s[1..]), Encode(t));
    }
  }

  lemma {:induction false} NameRead(spellings: seq<Spelling>, rest: seq<Unit>)
    requires AllLegible(spellings) && |rest| > 0
    ensures Unescaped(Units(SpelledName(spellings)) + rest) == Encode(ReadAs(spellings)) + Unescaped(rest)
  {
    hide Unescaped, Units, Encode, Spelled, TornApart;
    if |spellings| == 0 {
      NoUnits(rest);
      EncodeNothing();
      assert [] + Unescaped(rest) == Unescaped(rest);
    } else {
      var p, others := spellings[0], spellings[1..];
      UnitsConcat(Spelled(p), SpelledName(others));
      Regroup(Units(Spelled(p)), Units(SpelledName(others)), rest);
      NameRead(others, rest);
      SpellingRead(p, Units(SpelledName(others)) + rest);
      ReadAsFirst(spellings);
      EncodeConcat(ReadAs([p]), ReadAs(others));
      Regroup(Encode(ReadAs([p])), Encode(ReadAs(others)), Unescaped(rest));
    }
  }

  lemma EncodeNothing()
    ensures Encode("") == []
  {
  }

  lemma ReadAsFirst(spellings: seq<Spelling>)
    requires |spellings| > 0
    ensures ReadAs(spellings) == ReadAs([spellings[0]]) + ReadAs(spellings[1..])
  {
    assert [spellings[0]][1..] == [];
  }

  /** A quoted name with or without a tab behind it: the last unit is dropped, whatever it is, and a
      quote in front of it is kept. */
  lemma QuotedRead(spellings: seq<Spelling>, tab: bool)
    requires AllLegible(spellings)
    ensures Unquote(['"'] + SpelledName(spellings) + ['"'] + (if tab then "\t" else ""))
            == ReadAs(spellings) + (if tab then "\"" else "")
  {
    var body, end := SpelledName(spellings), ['"'] + (if tab then "\t" else "");
    assert ['"'] + body + ['"'] + (if tab then "\t" else "") == ['"'] + (body + end);
    UnitsCons('"', body + end);
    UnitsConcat(body, end);
    TailUnits(tab);
    var tail := Units(end);
    NameRead(spellings, tail);
    hide Units, Unescaped, SpelledName, ReadAs, Encode, Decode;
    assert ([34] + (Units(body) + tail))[1..] == Units(body) + tail;
    var quote := if tab then "\"" else "";
    EncodeConcat(ReadAs(spellings), quote);
    DecodeEncode(ReadAs(spellings) + quote);
  }

  lemma TailUnits(tab: bool)
    ensures var tail := Units(['"'] + (if tab then "\t" else ""));
            |tail| > 0 && Unescaped(tail) == Encode(if tab then "\"" else "")
  {
    UnitsCons('"', if tab then "\t" else "");
    UnitsCons('\t', "");
    assert "\t" == ['\t'] + "" && "\""[1..] == "";
    assert Units("") == [];
    var both: seq<Unit> := [34, 9];
    assert both[1..] == [9];
  }

  /** Whatever mix of raw characters, octal bytes and letters a quoted name is spelled in, reading it
      gives its characters back, except that a raw character outside the basic plane is read as two
      replacement characters. */
  lemma UnquoteSpelled(spellings: seq<Spelling>)
    requires AllLegible(spellings)
    ensures Unquote(['"'] + SpelledName(spellings) + ['"']) == ReadAs(spellings)
  {
    QuotedRead(spellings, false);
    var quoted := ['"'] + SpelledName(spellings) + ['"'];
    assert quoted + "" == quoted && ReadAs(spellings) + "" == ReadAs(spellings);
  }

  lemma {:induction false} ReadAsLength(spellings: seq<Spelling>)
    ensures |ReadAs(spellings)| >= |spellings| == |NameOf(spellings)|
    ensures (exists p :: p in spellings && TornApart(p)) ==> |ReadAs(spellings)| > |spellings|
    ensures !(exists p :: p in spellings && TornApart(p)) ==> ReadAs(spellings) == NameOf(spellings)
  {
    if |spellings| > 0 { ReadAsLength(spellings[1..]); }
  }

  /** A quoted name is read back exactly when no character outside the basic plane stands in it raw. */
  lemma UnquoteIsFaithful(spellings: seq<Spelling>)
    requires AllLegible(spellings)
    ensures Unquote(['"'] + SpelledName(spellings) + ['"']) == NameOf(spellings)
            <==> forall p :: p in spellings ==> !TornApart(p)
  {
    UnquoteSpelled(spellings);
    ReadAsLength(spellings);
  }

  // ----- Reading back what this program writes -----

  lemma EscapeRead(b: Byte, rest: seq<Unit>)
    requires |rest| > 0
    ensures Unescaped(Units(Escape(b)) + rest) == [b] + Unescaped(rest)
  {
    if IsPlain(b) {
      assert EncodeChar(b as char) == [b];
      hide Unescaped, Units, EncodeChar, Encode;
      RawRead(b as char, rest);
    } else {
      OctalRead(b, rest);
    }
  }

  lemma {:induction false} EscapedRead(bytes: Bytes, rest: seq<Unit>)
    requires |rest| > 0
    ensures Unescaped(Units(Escaped(bytes)) + rest) == bytes + Unescaped(rest)
  {
    hide Unescaped, Units, Escape;
    if |bytes| == 0 {
      NoUnits(rest);
      assert [] + Unescaped(rest) == Unescaped(rest);
    } else {
      var init, last := bytes[..|bytes| - 1], bytes[|bytes| - 1];
      UnitsConcat(Escaped(init), Escape(last));
      Regroup(Units(Escaped(init)), Units(Escape(last)), rest);
      EscapedRead(init, Units(Escape(last)) + rest);
      EscapeRead(last, rest);
      Regroup(init, [last], Unescaped(rest));
      assert init + [last] == bytes;
    }
  }

  lemma UnquoteEscaped(bytes: Bytes)
    ensures Unquote(['"'] + Escaped(bytes) + ['"']) == Decode(bytes)
  {
    hide Escaped, Decode, CharUnits;
    var body, tail := Escaped(bytes), Units(['"']);
    assert ['"'] + body + ['"'] == ['"'] + (body + ['"']);
    UnitsCons('"', body + ['"']);
    UnitsConcat(body, ['"']);
    UnitsCons('"', "");
    assert ['"'] + "" == ['"'];
    assert tail == ['"' as int];
    EscapedRead(bytes, tail);
    assert ([34] + (Units(body) + tail))[1..] == Units(body) + tail;
    assert Unescaped(tail) == [];
    assert bytes + [] == bytes;
  }

  /** Every path, whatever it contains, is read back from the name written for it. */
  lemma MarkerRoundTrip(prefix: char, path: string)
    requires prefix == 'a' || prefix == 'b'
    ensures ParseMarkerPath(QuotePatchPath(prefix, path), [prefix, '/']) == Some(path)
  {
    var name := [prefix, '/'] + path;
    var bytes := Encode(name);
    DecodeEncode(name);
    assert name[0] == prefix && name[2..] == path && [prefix, '/'] <= name;
    assert "/dev/null"[0] == '/';
    if AllPlain(bytes) {
      hide Unquote, Escaped, Encode, Decode, AllPlain;
    } else {
      UnquoteEscaped(bytes);
      hide Unquote, Escaped, Encode, Decode, AllPlain;
      assert (['"'] + Escaped(bytes) + ['"'])[0] == '"';
    }
  }

  predicate Printable(c: char) {
    ' ' < c <= '~'
  }

  lemma {:induction false} EscapedIsPrintable(bytes: Bytes)
    ensures forall c :: c in Escaped(bytes) ==> Printable(c)
  {
    if |bytes| > 0 { EscapedIsPrintable(bytes[..|bytes| - 1]); }
  }

  lemma {:induction false} PlainIsPrintable(s: string)
    requires AllPlain(Encode(s))
    ensures forall c :: c in s ==> Printable(c)
  {
    if |s| > 0 {
      var first, rest := EncodeChar(s[0]), Encode(s[1..]);
      assert IsPlain(Encode(s)[0]);
      forall i | 0 <= i < |rest|
        ensures IsPlain(rest[i])
      {
        assert Encode(s)[|first| + i] == rest[i];
      }
      PlainIsPrintable(s[1..]);
    }
  }

  /** A written name fits on one header line: it has no blank, no control character, no line break. */
  lemma WrittenNameIsPrintable(prefix: char, path: string)
    ensures forall c :: c in QuotePatchPath(prefix, path) ==> Printable(c)
  {
    var name := [prefix, '/'] + path;
    if AllPlain(Encode(name)) {
      DecodeEncode(name);
      PlainIsPrintable(name);
    } else {
      EscapedIsPrintable(Encode(name));
    }
  }

  // ----- Marker lines as git prints them -----

  /** A name as it stands on a `---` or `+++` line: bare, with its prefix in front, or quoted, with the
      prefix inside the quotes. */
  datatype Label = Bare(path: string) | Quoted(spellings: seq<Spelling>)

  /** A quoted name spells the prefix and then the path. */
  ghost predicate GoodLabel(prefix: char, l: Label) {
    l.Quoted? ==>
      && AllLegible(l.spellings)
      && [prefix, '/'] <= NameOf(l.spellings)
  }

  function LabelPath(prefix: char, l: Label): string
    requires GoodLabel(prefix, l)
  {
    match l
    case Bare(path) => path
    case Quoted(spellings) => NameOf(spellings)[2..]
  }

  function ShowLabel(prefix: char, l: Label): string
    requires GoodLabel(prefix, l)
  {
    match l
    case Bare(path) => [prefix, '/'] + path
    case Quoted(spellings) => ['"'] + SpelledName(spellings) + ['"']
  }

  /** git puts a tab behind a printed name that contains a blank. */
  function ShowMarker(prefix: char, l: Label): string
    requires GoodLabel(prefix, l)
  {
    ShowLabel(prefix, l) + (if ' ' in ShowLabel(prefix, l) then "\t" else "")
  }

  /** No blank in the printed name, and no raw character outside the basic plane in a quoted one. */
  predicate Faithful(prefix: char, l: Label)
    requires GoodLabel(prefix, l)
  {
    ' ' !in ShowLabel(prefix, l) && (l.Quoted? ==> forall p :: p in l.spellings ==> !TornApart(p))
  }

  function ReadMarker(prefix: char, l: Label): Option<string>
    requires GoodLabel(prefix, l)
  {
    ParseMarkerPath(ShowMarker(prefix, l), [prefix, '/'])
  }

  lemma BareMarker(prefix: char, path: string)
    requires prefix == 'a' || prefix == 'b'
    ensures ReadMarker(prefix, Bare(path)) == Some(path + (if ' ' in path then "\t" else ""))
  {
    var tab := if ' ' in path then "\t" else "";
    var raw := [prefix, '/'] + path + tab;
    assert ' ' in [prefix, '/'] + path <==> ' ' in path;
    assert raw[2..] == path + tab && [prefix, '/'] <= raw;
    assert raw[0] == prefix && "/dev/null"[0] == '/';
  }

  lemma QuotedMarker(prefix: char, spellings: seq<Spelling>)
    requires GoodLabel(prefix, Quoted(spellings))
    ensures var read := ReadAs(spellings) + (if ' ' in ShowLabel(prefix, Quoted(spellings)) then "\"" else "");
            ReadMarker(prefix, Quoted(spellings)) == Some(if [prefix, '/'] <= read then read[2..] else read)
  {
    var raw, tab := ShowMarker(prefix, Quoted(spellings)), ' ' in ShowLabel(prefix, Quoted(spellings));
    QuotedRead(spellings, tab);
    assert raw == ['"'] + SpelledName(spellings) + ['"'] + (if tab then "\t" else "");
    assert "/dev/null"[0] == '/';
    hide Unquote, SpelledName, ReadAs, ShowMarker, ShowLabel, AllLegible;
    assert raw[0] == '"';
  }

  /** A marker line names a file, and it is read back as the path it is printed for exactly when the
      printed name is faithful: a blank brings a tab with it, which a bare name keeps and which leaves a
      quoted one its closing quote, and a raw character outside the basic plane is torn apart. */
  lemma MarkerIsFaithful(prefix: char, l: Label)
    requires (prefix == 'a' || prefix == 'b') && GoodLabel(prefix, l)
    ensures ReadMarker(prefix, l).Some?
    ensures ReadMarker(prefix, l) == Some(LabelPath(prefix, l)) <==> Faithful(prefix, l)
  {
    match l
    case Bare(path) =>
      BareMarker(prefix, path);
      assert ' ' in [prefix, '/'] + path <==> ' ' in path;
      assert |path + "\t"| > |path| && path + "" == path;
    case Quoted(spellings) =>
      QuotedMarker(prefix, spellings);
      ReadAsLength(spellings);
      hide ReadMarker, ReadAs, NameOf, ShowLabel, AllLegible;
      assert ReadAs(spellings) + "" == ReadAs(spellings);
  }

  // ----- The names this program writes, as labels -----

  function SpellingOf(c: char): Spelling {
    if c as int < 128 && IsPlain(c as int) then Raw(c) else Octal(c)
  }

  function SpellingsOf(s: string): seq<Spelling> {
    if |s| == 0 then [] else [SpellingOf(s[0])] + SpellingsOf(s[1..])
  }

  function WrittenLabel(prefix: char, path: string): Label {
    if AllPlain(Encode([prefix, '/'] + path)) then Bare(path) else Quoted(SpellingsOf([prefix, '/'] + path))
  }

  lemma {:induction false} EscapedConcat(a: Bytes, b: Bytes)
    ensures Escaped(a + b) == Escaped(a) + Escaped(b)
  {
    hide Escape;
    if |b| == 0 {
      assert a + b == a;
    } else {
      EscapedConcat(a, b[..|b| - 1]);
      assert (a + b)[..|a + b| - 1] == a + b[..|b| - 1];
      Regroup(Escaped(a), Escaped(b[..|b| - 1]), Escape(b[|b| - 1]));
    }
  }

  lemma OneEscaped(b: Byte)
    requires !IsPlain(b)
    ensures Escaped([b]) == ['\\'] + OctalDigits(b)
  {
    hide OctalDigits, IsPlain;
    assert [b][..0] == [] && Escaped([]) == "";
    assert "" + (['\\'] + OctalDigits(b)) == ['\\'] + OctalDigits(b);
  }

  lemma {:induction false} NoPlainByte(bytes: Bytes)
    requires forall b :: b in bytes ==> !IsPlain(b)
    ensures Escaped(bytes) == InOctal(bytes)
  {
    if |bytes| > 0 {
      var first, rest := [bytes[0]], bytes[1..];
      NoPlainByte(rest);
      EscapedConcat(first, rest);
      assert first + rest == bytes;
      assert !IsPlain(bytes[0]);
      OneEscaped(bytes[0]);
      hide OctalDigits, IsPlain, Escaped;
    }
  }

  lemma CharEscaped(c: char)
    ensures Escaped(EncodeChar(c)) == Spelled(SpellingOf(c))
  {
    if c as int < 128 {
      assert EncodeChar(c) == [c as int] && [c as int][..0] == [];
      if IsPlain(c as int) {
        assert Escaped([c as int]) == "" + [c];
      } else {
        NoPlainByte(EncodeChar(c));
      }
    } else {
      assert forall b :: b in EncodeChar(c) ==> b >= 128;
      NoPlainByte(EncodeChar(c));
    }
  }

  lemma {:induction false} SpellingsAreLegible(s: string)
    ensures AllLegible(SpellingsOf(s)) && NameOf(SpellingsOf(s)) == s
    ensures forall p :: p in SpellingsOf(s) ==> !TornApart(p)
  {
    if |s| > 0 { SpellingsAreLegible(s[1..]); }
  }

  lemma {:induction false} EscapedIsSpelled(s: string)
    ensures AllLegible(SpellingsOf(s)) && Escaped(Encode(s)) == SpelledName(SpellingsOf(s))
  {
    SpellingsAreLegible(s);
    hide EncodeChar, Escape, SpellingOf, Spelled, Legible;
    if |s| > 0 {
      EscapedIsSpelled(s[1..]);
      EscapedConcat(EncodeChar(s[0]), Encode(s[1..]));
      CharEscaped(s[0]);
    }
  }

  /** A written name is a faithful label of its path, printed without a tab. */
  lemma WrittenIsFaithful(prefix: char, path: string)
    requires prefix == 'a' || prefix == 'b'
    ensures var l := WrittenLabel(prefix, path);
            && GoodLabel(prefix, l) && LabelPath(prefix, l) == path
            && ShowMarker(prefix, l) == QuotePatchPath(prefix, path)
            && Faithful(prefix, l)
  {
    var name := [prefix, '/'] + path;
    SpellingsAreLegible(name);
    EscapedIsSpelled(name);
    DecodeEncode(name);
    WrittenNameIsPrintable(prefix, path);
    hide Encode, Decode, Escaped, SpelledName, SpellingsOf, NameOf, IsPlain;
    var l := WrittenLabel(prefix, path);
    assert name[2..] == path;
    assert ShowLabel(prefix, l) == QuotePatchPath(prefix, path);
    assert ShowLabel(prefix, l) + "" == ShowLabel(prefix, l);
  }
}
