/**
 * Base64 as in section 4 of RFC 4648, in the two forms a browser offers:
 * `btoa`, which encodes a "binary string" (every code unit at most 0xFF) with padding and
 * throws on any other string, and `atob`, the forgiving decoder of the WHATWG HTML standard
 * (ASCII white space ignored, padding optional, failure on anything outside the alphabet).
 */
module Base64 {
  import opened Common
  import opened JsText

  /** The character for a 6-bit value: A-Z, a-z, 0-9, '+', '/'. */
  function Char(v: bv16): bv16
    requires v < 64
  {
    if v < 26 then 0x41 + v
    else if v < 52 then 0x61 + (v - 26)
    else if v < 62 then 0x30 + (v - 52)
    else if v == 62 then 0x2B
    else 0x2F
  }

  /** The padding character '='. */
  const Pad: bv16 := 0x3D

  predicate InAlphabet(c: bv16) {
    (0x41 <= c <= 0x5A) || (0x61 <= c <= 0x7A) || (0x30 <= c <= 0x39) || c == 0x2B || c == 0x2F
  }

  predicate AllInAlphabet(s: JsString) {
    forall i :: 0 <= i < |s| ==> InAlphabet(s[i])
  }

  /** The 6-bit value of an alphabet character. */
  function Value(c: bv16): (v: bv16)
    requires InAlphabet(c)
    ensures v < 64
  {
    if 0x41 <= c <= 0x5A then c - 0x41
    else if 0x61 <= c <= 0x7A then c - 0x61 + 26
    else if 0x30 <= c <= 0x39 then c - 0x30 + 52
    else if c == 0x2B then 62
    else 63
  }

  lemma CharValue(v: bv16)
    requires v < 64
    ensures InAlphabet(Char(v)) && Value(Char(v)) == v
  {
  }

  /** A string `btoa` accepts: every code unit fits in a byte. */
  predicate IsBinary(s: JsString) {
    forall i :: 0 <= i < |s| ==> s[i] <= 0xFF
  }

  // ---------------------------------------------------------------------------
  // encoding

  /** The four characters of three bytes. */
  function EncodeGroup(b0: bv16, b1: bv16, b2: bv16): (r: JsString)
    requires b0 <= 0xFF && b1 <= 0xFF && b2 <= 0xFF
    ensures |r| == 4 && AllInAlphabet(r)
  {
    CharValue(b0 >> 2);
    CharValue(((b0 & 3) << 4) | (b1 >> 4));
    CharValue(((b1 & 15) << 2) | (b2 >> 6));
    CharValue(b2 & 63);
    [Char(b0 >> 2), Char(((b0 & 3) << 4) | (b1 >> 4)), Char(((b1 & 15) << 2) | (b2 >> 6)), Char(b2 & 63)]
  }

  /** The encoding without its padding: 4 characters per 3 bytes, then 2 or 3 for a final 1 or 2 bytes. */
  function EncodeUnpadded(s: JsString): (r: JsString)
    requires IsBinary(s)
    ensures AllInAlphabet(r)
    ensures |r| == 4 * (|s| / 3) + (if |s| % 3 == 0 then 0 else |s| % 3 + 1)
  {
    if |s| >= 3 then
      EncodeGroup(s[0], s[1], s[2]) + EncodeUnpadded(s[3..])
    else if |s| == 2 then
      CharValue(s[0] >> 2);
      CharValue(((s[0] & 3) << 4) | (s[1] >> 4));
      CharValue((s[1] & 15) << 2);
      [Char(s[0] >> 2), Char(((s[0] & 3) << 4) | (s[1] >> 4)), Char((s[1] & 15) << 2)]
    else if |s| == 1 then
      CharValue(s[0] >> 2);
      CharValue((s[0] & 3) << 4);
      [Char(s[0] >> 2), Char((s[0] & 3) << 4)]
    else
      []
  }

  /** The '=' characters that complete the last group. */
  function Padding(n: nat): JsString {
    if n % 3 == 1 then [Pad, Pad] else if n % 3 == 2 then [Pad] else []
  }

  /** `btoa`: the padded encoding of a binary string, or failure (the `InvalidCharacterError`). */
  function Btoa(s: JsString): Option<JsString> {
    if IsBinary(s) then Some(EncodeUnpadded(s) + Padding(|s|)) else None
  }

  // ---------------------------------------------------------------------------
  // forgiving decoding

  /** The white space `atob` skips: TAB, LF, FF, CR and SPACE. */
  predicate IsAsciiWhite(c: bv16) {
    c == 0x09 || c == 0x0A || c == 0x0C || c == 0x0D || c == 0x20
  }

  function RemoveAsciiWhite(s: JsString): JsString {
    if s == [] then []
    else (if IsAsciiWhite(s[0]) then [] else [s[0]]) + RemoveAsciiWhite(s[1..])
  }

  /** When the length is a multiple of four, one or two trailing '=' are dropped. */
  function StripPadding(s: JsString): JsString {
    if |s| % 4 != 0 then s
    else if |s| >= 2 && s[|s| - 2] == Pad && s[|s| - 1] == Pad then s[..|s| - 2]
    else if |s| >= 1 && s[|s| - 1] == Pad then s[..|s| - 1]
    else s
  }

  /** The three bytes of four characters. */
  function DecodeGroup(c0: bv16, c1: bv16, c2: bv16, c3: bv16): JsString
    requires InAlphabet(c0) && InAlphabet(c1) && InAlphabet(c2) && InAlphabet(c3)
  {
    var v0, v1, v2, v3 := Value(c0), Value(c1), Value(c2), Value(c3);
    [((v0 << 2) | (v1 >> 4)) & 0xFF, ((v1 << 4) | (v2 >> 2)) & 0xFF, ((v2 << 6) | v3) & 0xFF]
  }

  /** Decoding of an unpadded body; leftover bits of a final 2 or 3 characters are discarded. */
  function DecodeUnpadded(d: JsString): JsString
    requires AllInAlphabet(d) && |d| % 4 != 1
  {
    if |d| >= 4 then
      DecodeGroup(d[0], d[1], d[2], d[3]) + DecodeUnpadded(d[4..])
    else if |d| == 3 then
      var v0, v1, v2 := Value(d[0]), Value(d[1]), Value(d[2]);
      [((v0 << 2) | (v1 >> 4)) & 0xFF, ((v1 << 4) | (v2 >> 2)) & 0xFF]
    else if |d| == 2 then
      [((Value(d[0]) << 2) | (Value(d[1]) >> 4)) & 0xFF]
    else
      []
  }

  /** `atob`: the forgiving-base64 decoding, or failure (the `InvalidCharacterError`). */
  function Atob(s: JsString): Option<JsString> {
    var d := StripPadding(RemoveAsciiWhite(s));
    if |d| % 4 == 1 || !AllInAlphabet(d) then None else Some(DecodeUnpadded(d))
  }

  // ---------------------------------------------------------------------------
  // round trip

  /** `btoa` accepts exactly the binary strings and its output is made of alphabet characters and '='. */
  lemma BtoaAcceptsBinary(s: JsString)
    ensures Btoa(s).Some? <==> IsBinary(s)
    ensures Btoa(s).Some? ==> |Btoa(s).value| % 4 == 0
  {
  }

  /** Decoding what `btoa` produced gives the original binary string back. */
  lemma AtobBtoa(s: JsString)
    requires IsBinary(s)
    ensures Btoa(s).Some? && Atob(Btoa(s).value) == Some(s)
  {
    var u := EncodeUnpadded(s);
    var e := u + Padding(|s|);
    assert Btoa(s) == Some(e);
    NoWhiteIn(e);
    StripEncodedPadding(s);
    assert StripPadding(RemoveAsciiWhite(e)) == u;
    NotOneMod4(|u|, |s| / 3);
    DecodeEncode(s);
  }

  /** An unpadded encoding never leaves a single character over. */
  lemma NotOneMod4(n: nat, q: nat)
    requires n == 4 * q || n == 4 * q + 2 || n == 4 * q + 3
    ensures n % 4 != 1
  {
  }

  lemma StripEncodedPadding(s: JsString)
    requires IsBinary(s)
    ensures StripPadding(EncodeUnpadded(s) + Padding(|s|)) == EncodeUnpadded(s)
  {
    var u := EncodeUnpadded(s);
    StripPaddedLength(u, |s|);
  }

  lemma StripPaddedLength(u: JsString, n: nat)
    requires AllInAlphabet(u) && |u| == 4 * (n / 3) + (if n % 3 == 0 then 0 else n % 3 + 1)
    ensures StripPadding(u + Padding(n)) == u
  {
    var q := n / 3;
    if n % 3 == 1 {
      StripTwo(u, q);
    } else if n % 3 == 2 {
      StripOne(u, q);
    } else {
      StripNone(u, q);
    }
  }

  lemma StripTwo(u: JsString, q: nat)
    requires AllInAlphabet(u) && |u| == 4 * q + 2
    ensures StripPadding(u + [Pad, Pad]) == u
  {
    var e := u + [Pad, Pad];
    assert |e| == 4 * (q + 1);
    assert e[..|e| - 2] == u;
  }

  lemma StripOne(u: JsString, q: nat)
    requires AllInAlphabet(u) && |u| == 4 * q + 3
    ensures StripPadding(u + [Pad]) == u
  {
    var e := u + [Pad];
    assert |e| == 4 * (q + 1);
    assert e[|e| - 2] == u[|u| - 1];
    assert e[..|e| - 1] == u;
  }

  lemma StripNone(u: JsString, q: nat)
    requires AllInAlphabet(u) && |u| == 4 * q
    ensures StripPadding(u) == u
  {
    if u != [] {
      assert InAlphabet(u[|u| - 1]);
    }
  }

  lemma {:induction false} NoWhiteIn(e: JsString)
    requires forall i :: 0 <= i < |e| ==> InAlphabet(e[i]) || e[i] == Pad
    ensures RemoveAsciiWhite(e) == e
  {
    if e != [] {
      NoWhiteIn(e[1..]);
    }
  }

  lemma GroupRoundTrip(b0: bv16, b1: bv16, b2: bv16)
    requires b0 <= 0xFF && b1 <= 0xFF && b2 <= 0xFF
    ensures var g := EncodeGroup(b0, b1, b2); DecodeGroup(g[0], g[1], g[2], g[3]) == [b0, b1, b2]
  {
    CharValue(b0 >> 2);
    CharValue(((b0 & 3) << 4) | (b1 >> 4));
    CharValue(((b1 & 15) << 2) | (b2 >> 6));
    CharValue(b2 & 63);
  }

  lemma {:induction false} DecodeEncode(s: JsString)
    requires IsBinary(s)
    ensures DecodeUnpadded(EncodeUnpadded(s)) == s
  {
    var u := EncodeUnpadded(s);
    if |s| >= 3 {
      var g := EncodeGroup(s[0], s[1], s[2]);
      assert u[..4] == g && u[4..] == EncodeUnpadded(s[3..]);
      GroupRoundTrip(s[0], s[1], s[2]);
      DecodeEncode(s[3..]);
      assert s == [s[0], s[1], s[2]] + s[3..];
    } else {
      DecodeEncodeShort(s);
    }
  }

  /** The final group of one or two units round-trips. */
  lemma DecodeEncodeShort(s: JsString)
    requires IsBinary(s) && |s| < 3
    ensures DecodeUnpadded(EncodeUnpadded(s)) == s
  {
    if |s| == 2 {
      CharValue(s[0] >> 2);
      CharValue(((s[0] & 3) << 4) | (s[1] >> 4));
      CharValue((s[1] & 15) << 2);
    } else if |s| == 1 {
      CharValue(s[0] >> 2);
      CharValue((s[0] & 3) << 4);
    }
  }

  /** Decoding yields a binary string: every decoded unit is a byte. */
  lemma {:induction false} AtobIsBinary(s: JsString)
    requires Atob(s).Some?
    ensures IsBinary(Atob(s).value)
  {
    var d := StripPadding(RemoveAsciiWhite(s));
    DecodedIsBinary(d);
  }

  lemma {:induction false} DecodedIsBinary(d: JsString)
    requires AllInAlphabet(d) && |d| % 4 != 1
    ensures IsBinary(DecodeUnpadded(d))
  {
    if |d| >= 4 {
      DecodedIsBinary(d[4..]);
    }
  }
}
