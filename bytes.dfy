/**
 * Octets and the fixed-width fields the TLS decoder reads out of a captured
 * buffer: big-endian 16- and 24-bit lengths, the little-endian assembly the
 * decoder uses for the Unix time of a Hello random, and the two-digit
 * upper-case hex rendering used for random values and session identifiers.
 */
module Bytes {

  /** One octet of a captured packet. */
  type Byte = b: int | 0 <= b < 256

  /** Two octets at `i`, high octet first (`high * 256 + low`). */
  function Be16(s: seq<Byte>, i: nat): (v: nat)
    requires i + 2 <= |s|
    ensures v < 0x1_0000
    ensures v / 256 == s[i] && v % 256 == s[i + 1]
  {
    s[i] as int * 256 + s[i + 1]
  }

  /** Three octets at `i` in transmitted order: `high << 16 | middle << 8 | low`. */
  function Be24(s: seq<Byte>, i: nat): (v: nat)
    requires i + 3 <= |s|
    ensures v < 0x100_0000
    ensures v / 0x1_0000 == s[i] && (v / 256) % 256 == s[i + 1] && v % 256 == s[i + 2]
  {
    s[i] as int * 0x1_0000 + s[i + 1] as int * 256 + s[i + 2]
  }

  /**
   * Four octets at `i` with the FIRST octet least significant. This is how the
   * decoder assembles the Unix time of a Hello random (the wire format is
   * big-endian, so the printed time is byte-swapped).
   */
  function Le32(s: seq<Byte>, i: nat): (v: nat)
    requires i + 4 <= |s|
    ensures v < 0x1_0000_0000
    ensures v % 256 == s[i] && (v / 256) % 256 == s[i + 1]
    ensures (v / 0x1_0000) % 256 == s[i + 2] && v / 0x100_0000 == s[i + 3]
  {
    var high := s[i + 2] as int + 256 * (s[i + 3] as int);
    var upper := s[i + 1] as int + 256 * high;
    ShiftOctet(s[i + 2], s[i + 3]);
    ShiftOctet(s[i + 1], high);
    ShiftOctet(s[i], upper);
    s[i] as int + 256 * upper
  }

  /** Dividing by 256 splits off the low octet. */
  lemma ShiftOctet(low: Byte, rest: nat)
    ensures (low + 256 * rest) % 256 == low && (low + 256 * rest) / 256 == rest
  {
  }

  /**
   * `octets` are the `|octets|` octets of `s` from `from` on. Stated octet
   * by octet so that a proof only looks at the octets it needs; the same as
   * `octets == s[from .. from + |octets|]` (OctetsAtIsSlice).
   */
  ghost predicate OctetsAt(octets: seq<Byte>, s: seq<Byte>, from: nat)
  {
    && from + |octets| <= |s|
    && forall i :: 0 <= i < |octets| ==> octets[i] == s[from + i]
  }

  lemma OctetsAtIsSlice(octets: seq<Byte>, s: seq<Byte>, from: nat)
    ensures OctetsAt(octets, s, from) <==> from + |octets| <= |s| && octets == s[from .. from + |octets|]
  {
    if from + |octets| <= |s| && octets == s[from .. from + |octets|] {
      assert forall i :: 0 <= i < |octets| ==> octets[i] == s[from .. from + |octets|][i];
    }
  }

  /** The digit table `"0123456789ABCDEF"` indexed by a nibble. */
  function HexDigit(n: nat): (c: char)
    requires n < 16
  {
    "0123456789ABCDEF"[n]
  }

  /** The value of an upper-case hex digit, the inverse of HexDigit. */
  function DigitValue(c: char): (n: int)
  {
    if '0' <= c <= '9' then c as int - '0' as int
    else if 'A' <= c <= 'F' then c as int - 'A' as int + 10
    else -1
  }

  lemma DigitValueInvertsHexDigit(n: nat)
    requires n < 16
    ensures DigitValue(HexDigit(n)) == n
  {
  }

  /** True when `text` holds two upper-case hex digits per octet of `octets`, high nibble first. */
  ghost predicate IsHexOf(text: string, octets: seq<Byte>)
  {
    && |text| == 2 * |octets|
    && forall i :: 0 <= i < |octets| ==>
         text[2 * i] == HexDigit(octets[i] / 16) && text[2 * i + 1] == HexDigit(octets[i] % 16)
  }

  /**
   * `text` is the hex rendering of the `count` octets of `s` from `from` on,
   * stated octet by octet; the same as IsHexOf on that slice (IsHexAtSlice).
   */
  ghost predicate IsHexAt(text: string, s: seq<Byte>, from: nat, count: nat)
  {
    && from + count <= |s|
    && |text| == 2 * count
    && forall i :: 0 <= i < count ==>
         text[2 * i] == HexDigit(s[from + i] / 16) && text[2 * i + 1] == HexDigit(s[from + i] % 16)
  }

  lemma IsHexAtSlice(text: string, s: seq<Byte>, from: nat, count: nat)
    requires from + count <= |s|
    ensures IsHexAt(text, s, from, count) <==> IsHexOf(text, s[from .. from + count])
  {
    var slice := s[from .. from + count];
    assert forall i :: 0 <= i < count ==> slice[i] == s[from + i];
  }

  /** The first `m` octets' digits are the first `2 * m` characters. */
  lemma HexPrefix(text: string, octets: seq<Byte>, m: nat)
    requires IsHexOf(text, octets) && m <= |octets|
    ensures IsHexOf(text[..2 * m], octets[..m])
  {
  }

  /** Reads a string of hex digit pairs back into octet values. */
  function ParseHex(text: string): (values: seq<int>)
    requires |text| % 2 == 0
    ensures |values| == |text| / 2
  {
    if |text| == 0 then []
    else [DigitValue(text[0]) * 16 + DigitValue(text[1])] + ParseHex(text[2..])
  }

  /** Dropping the first octet drops its two digits. */
  lemma HexTail(text: string, octets: seq<Byte>)
    requires IsHexOf(text, octets) && |octets| > 0
    ensures IsHexOf(text[2..], octets[1..])
  {
    forall i | 0 <= i < |octets| - 1
      ensures text[2..][2 * i] == HexDigit(octets[1..][i] / 16)
      ensures text[2..][2 * i + 1] == HexDigit(octets[1..][i] % 16)
    {
      assert text[2..][2 * i] == text[2 * (i + 1)];
      assert text[2..][2 * i + 1] == text[2 * (i + 1) + 1];
    }
  }

  /** Rendering octets as hex loses nothing: parsing the text gives the octets back. */
  lemma {:induction false} HexRoundTrip(text: string, octets: seq<Byte>)
    requires IsHexOf(text, octets)
    ensures ParseHex(text) == octets
  {
    if |octets| > 0 {
      var b := octets[0];
      DigitValueInvertsHexDigit(b / 16);
      DigitValueInvertsHexDigit(b % 16);
      HexTail(text, octets);
      HexRoundTrip(text[2..], octets[1..]);
      assert text[0] == HexDigit(b / 16) && text[1] == HexDigit(b % 16);
    }
  }

  /**
   * The hex-rendering loop the decoder runs into its random-value and
   * session-identifier buffers: two digits per octet, high nibble first.
   */
  method EncodeHex(octets: seq<Byte>) returns (text: string)
    ensures IsHexOf(text, octets)
  {
    text := "";
    var offset := 0;
    while offset < |octets|
      invariant 0 <= offset <= |octets|
      invariant IsHexOf(text, octets[..offset])
    {
      text := text + [HexDigit(octets[offset] / 16), HexDigit(octets[offset] % 16)];
      offset := offset + 1;
    }
    assert octets[..offset] == octets;
  }
}
