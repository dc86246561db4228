/** UTF-8 as the runtime encodes and decodes it: RFC 3629 section 3 for well-formed bytes, and one
    replacement character for every maximal ill-formed prefix. */
module Utf8 {
  type Byte = b: int | 0 <= b < 256

  type Bytes = seq<Byte>

  const REPLACEMENT := '\U{FFFD}'

  function EncodeChar(c: char): (bytes: Bytes)
    ensures 1 <= |bytes| <= 4
  {
    var n := c as int;
    if n < 0x80 then [n]
    else if n < 0x800 then [0xC0 + n / 0x40, Tail(n)]
    else if n < 0x1_0000 then [0xE0 + n / 0x1000, Tail(n / 0x40), Tail(n)]
    else [0xF0 + n / 0x4_0000, Tail(n / 0x1000), Tail(n / 0x40), Tail(n)]
  }

  function Tail(n: nat): Byte {
    0x80 + n % 0x40
  }

  function Encode(s: string): Bytes {
    if |s| == 0 then [] else EncodeChar(s[0]) + Encode(s[1..])
  }

  predicate IsTail(b: Byte) {
    0x80 <= b <= 0xBF
  }

  /** The second bytes that may follow a lead byte, which excludes overlong forms and surrogates. */
  predicate Follows(lead: Byte, b: Byte) {
    if lead == 0xE0 then 0xA0 <= b <= 0xBF
    else if lead == 0xED then 0x80 <= b <= 0x9F
    else if lead == 0xF0 then 0x90 <= b <= 0xBF
    else if lead == 0xF4 then 0x80 <= b <= 0x8F
    else IsTail(b)
  }

  /** How many bytes a lead byte announces; 0 for a byte that cannot lead. */
  function Announced(lead: Byte): (n: nat)
    ensures n <= 4
  {
    if lead < 0x80 then 1
    else if 0xC2 <= lead <= 0xDF then 2
    else if 0xE0 <= lead <= 0xEF then 3
    else if 0xF0 <= lead <= 0xF4 then 4
    else 0
  }

  /** The bytes of the first character that are there, or of the ill-formed prefix replaced as one. */
  function Consumed(bytes: Bytes): (n: nat)
    requires |bytes| > 0
    ensures 1 <= n <= |bytes|
  {
    var announced := Announced(bytes[0]);
    if announced <= 1 || |bytes| == 1 || !Follows(bytes[0], bytes[1]) then 1
    else if announced == 2 || |bytes| == 2 || !IsTail(bytes[2]) then 2
    else if announced == 3 || |bytes| == 3 || !IsTail(bytes[3]) then 3
    else 4
  }

  function CodePoint(bytes: Bytes): int
    requires 1 <= |bytes| <= 4
  {
    var lead: int := bytes[0];
    if |bytes| == 1 then lead
    else if |bytes| == 2 then (lead - 0xC0) * 0x40 + Bits(bytes[1])
    else if |bytes| == 3 then (lead - 0xE0) * 0x1000 + Bits(bytes[1]) * 0x40 + Bits(bytes[2])
    else (lead - 0xF0) * 0x4_0000 + Bits(bytes[1]) * 0x1000 + Bits(bytes[2]) * 0x40 + Bits(bytes[3])
  }

  /** The payload of a continuation byte. */
  function Bits(b: Byte): int {
    b - 0x80
  }

  function DecodeChar(bytes: Bytes): char
    requires |bytes| > 0
  {
    var n := Consumed(bytes);
    if n == Announced(bytes[0]) then CodePoint(bytes[..n]) as char else REPLACEMENT
  }

  function Decode(bytes: Bytes): string {
    if |bytes| == 0 then "" else [DecodeChar(bytes)] + Decode(bytes[Consumed(bytes)..])
  }

  lemma ConsumesEncoded(c: char, rest: Bytes)
    ensures Consumed(EncodeChar(c) + rest) == |EncodeChar(c)| == Announced(EncodeChar(c)[0])
  {
  }

  lemma BitGroups(n: nat)
    ensures n / 0x40 * 0x40 + n % 0x40 == n
    ensures n / 0x1000 * 0x40 + n / 0x40 % 0x40 == n / 0x40
    ensures n / 0x4_0000 * 0x40 + n / 0x1000 % 0x40 == n / 0x1000
  {
  }

  lemma EncodedCodePoint(c: char)
    ensures CodePoint(EncodeChar(c)) == c as int
  {
    var n := c as int;
    var low, mid, high := n % 0x40, n / 0x40 % 0x40, n / 0x1000 % 0x40;
    BitGroups(n);
    assert Bits(Tail(n)) == low && Bits(Tail(n / 0x40)) == mid && Bits(Tail(n / 0x1000)) == high;
    hide Tail, Bits;
  }

  lemma DecodesEncoded(c: char, rest: Bytes)
    ensures var bytes := EncodeChar(c) + rest;
            Consumed(bytes) == |EncodeChar(c)| && DecodeChar(bytes) == c
  {
    ConsumesEncoded(c, rest);
    EncodedCodePoint(c);
    assert (EncodeChar(c) + rest)[..|EncodeChar(c)|] == EncodeChar(c);
  }

  /** Decoding undoes encoding, for every text. */
  lemma {:induction false} DecodeEncode(s: string)
    ensures Decode(Encode(s)) == s
  {
    if |s| > 0 {
      var first, rest := EncodeChar(s[0]), Encode(s[1..]);
      DecodesEncoded(s[0], rest);
      assert (first + rest)[|first|..] == rest;
      DecodeEncode(s[1..]);
    }
  }
}
