/**
 * The integer part of building a colour from a hex string: strip
 * non-alphanumeric characters from both ends, then split the scanned 64-bit
 * value into alpha, red, green and blue according to the stripped length.
 */
module HexColor {

  /** An unsigned 64-bit integer, with the platform's shifts and masks. */
  type UInt64 = bv64

  /** The four components before they are divided by 255. */
  datatype Argb = Argb(a: UInt64, r: UInt64, g: UInt64, b: UInt64)

  // ---------------------------------------------------------------------------
  // Trimming
  // ---------------------------------------------------------------------------

  /** Letters and digits; only ASCII characters are considered. */
  predicate IsAlphanumeric(c: char) {
    'a' <= c <= 'z' || 'A' <= c <= 'Z' || '0' <= c <= '9'
  }

  /** Drop non-alphanumeric characters from the front. */
  function TrimStart(s: string): (r: string)
    ensures |r| <= |s| && r == s[|s| - |r|..]
    ensures forall k :: 0 <= k < |s| - |r| ==> !IsAlphanumeric(s[k])
    ensures r == [] || IsAlphanumeric(r[0])
  {
    if s != [] && !IsAlphanumeric(s[0]) then
      var t := s[1..];
      var r := TrimStart(t);
      assert r == t[|t| - |r|..] == s[|s| - |r|..];
      assert forall k :: 1 <= k < |s| - |r| ==> s[k] == t[k - 1];
      r
    else s
  }

  /** Drop non-alphanumeric characters from the back. */
  function TrimEnd(s: string): (r: string)
    ensures |r| <= |s| && r == s[..|r|]
    ensures forall k :: |r| <= k < |s| ==> !IsAlphanumeric(s[k])
    ensures r == [] || IsAlphanumeric(r[|r| - 1])
  {
    if s != [] && !IsAlphanumeric(s[|s| - 1]) then TrimEnd(s[..|s| - 1]) else s
  }

  /** `trimmingCharacters(in: CharacterSet.alphanumerics.inverted)` */
  function Trim(s: string): (r: string)
    ensures r == [] || (IsAlphanumeric(r[0]) && IsAlphanumeric(r[|r| - 1]))
  {
    TrimEnd(TrimStart(s))
  }

  /** A leading `#` is stripped: "#FFF" and "FFF" trim to the same string. */
  lemma TrimHash(s: string)
    ensures Trim(['#'] + s) == Trim(s)
  {
    assert (['#'] + s)[1..] == s;
  }

  /** A string already made of letters and digits is left as it is. */
  lemma {:induction false} TrimAlphanumeric(s: string)
    requires forall k :: 0 <= k < |s| ==> IsAlphanumeric(s[k])
    ensures Trim(s) == s
  {
  }

  // ---------------------------------------------------------------------------
  // Components
  // ---------------------------------------------------------------------------

  /** The switch on the trimmed length, applied to the scanned value. */
  function Components(count: int, v: UInt64): Argb {
    if count == 3 then
      Argb(255, (v >> 8) * 17, ((v >> 4) & 0xF) * 17, (v & 0xF) * 17)
    else if count == 6 then
      Argb(255, v >> 16, (v >> 8) & 0xFF, v & 0xFF)
    else if count == 8 then
      Argb(v >> 24, (v >> 16) & 0xFF, (v >> 8) & 0xFF, v & 0xFF)
    else
      Argb(1, 1, 1, 0)
  }

  /** `Color(hex:)`, given what the scanner read from the trimmed string. */
  function ColorFromHex(hex: string, scanned: UInt64): Argb {
    Components(|Trim(hex)|, scanned)
  }

  /** Multiplying a nibble by 17 writes it into both halves of a byte: 0x0 gives 0, 0xF gives 255. */
  lemma NibbleTimes17(n: UInt64)
    requires n < 16
    ensures n * 17 == (n << 4) | n
    ensures n * 17 <= 255
    ensures n == 0 ==> n * 17 == 0
    ensures n == 15 ==> n * 17 == 255
  {
  }

  /**
   * Three characters (12-bit RGB): opaque, green and blue fit in a byte, and
   * red fits in a byte exactly when the value has at most three hex digits.
   */
  lemma Rgb12Bounds(v: UInt64)
    ensures var c := Components(3, v);
      && c.a == 255
      && c.g <= 255 && c.b <= 255
      && (c.r <= 255 <==> v < 0x1000)
  {
  }

  /**
   * Three characters with at most three hex digits: each nibble is written
   * into both halves of its component's byte, and the low nibbles of the
   * three components reassemble the value.
   */
  lemma Rgb12Nibbles(v: UInt64)
    requires v < 0x1000
    ensures var c := Components(3, v);
      && c.r == ((v >> 8) << 4) | (v >> 8)
      && c.g == (((v >> 4) & 0xF) << 4) | ((v >> 4) & 0xF)
      && c.b == ((v & 0xF) << 4) | (v & 0xF)
      && ((c.r & 0xF) << 8) | ((c.g & 0xF) << 4) | (c.b & 0xF) == v
  {
    NibbleTimes17(v >> 8);
    NibbleTimes17((v >> 4) & 0xF);
    NibbleTimes17(v & 0xF);
  }

  /**
   * Six characters (24-bit RGB): opaque, and red, green and blue are the three
   * low bytes of the value, which they reassemble; red fits in a byte exactly
   * when the value has at most six hex digits.
   */
  lemma Rgb24(v: UInt64)
    ensures var c := Components(6, v);
      && c.a == 255
      && c.g <= 255 && c.b <= 255
      && (c.r <= 255 <==> v < 0x100_0000)
      && (v < 0x100_0000 ==> c.r * 0x1_0000 + c.g * 0x100 + c.b == v)
  {
  }

  /**
   * Eight characters (32-bit ARGB): alpha is the top byte, red, green and blue
   * the three below, and together they reassemble the value; alpha fits in a
   * byte exactly when the value has at most eight hex digits.
   */
  lemma Argb32(v: UInt64)
    ensures var c := Components(8, v);
      && c.r <= 255 && c.g <= 255 && c.b <= 255
      && (c.a <= 255 <==> v < 0x1_0000_0000)
      && (v < 0x1_0000_0000 ==> c.a * 0x100_0000 + c.r * 0x1_0000 + c.g * 0x100 + c.b == v)
  {
  }

  /** Any other length gives (1, 1, 1, 0), whatever was scanned. */
  lemma OtherLengths(count: int, v: UInt64, w: UInt64)
    requires count != 3 && count != 6 && count != 8
    ensures Components(count, v) == Argb(1, 1, 1, 0)
    ensures Components(count, v) == Components(count, w)
  {
  }

  /** "#FFF" and "FFF" give the same components. */
  lemma HashIgnored(s: string, scanned: UInt64)
    ensures ColorFromHex(['#'] + s, scanned) == ColorFromHex(s, scanned)
  {
    TrimHash(s);
  }

  /** The player's background "1A1A1A" is opaque with 26 in each channel. */
  lemma PlayerBackground()
    ensures ColorFromHex("1A1A1A", 0x1A1A1A) == Argb(255, 26, 26, 26)
  {
    var h := "1A1A1A";
    assert forall k :: 0 <= k < |h| ==> IsAlphanumeric(h[k]) by {
      assert h == ['1', 'A', '1', 'A', '1', 'A'];
    }
    TrimAlphanumeric(h);
    var v: UInt64 := 0x1A1A1A;
    assert Components(6, v) == Argb(255, 26, 26, 26) by {
      assert v >> 16 == 0x1A;
      assert (v >> 8) & 0xFF == 0x1A;
      assert v & 0xFF == 0x1A;
    }
  }
}
