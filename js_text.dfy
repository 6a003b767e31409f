/**
 * JavaScript strings as the model sees them: sequences of UTF-16 code units, with the few
 * `String` operations the modelled code uses (`trim`, `toUpperCase`, `split`, `padStart`,
 * number-to-decimal and byte-to-hex conversion).
 */
module JsText {
  import opened Common

  /** A JavaScript string: its UTF-16 code units, so `length` and `charCodeAt` are `|s|` and `s[i]`. */
  type JsString = seq<bv16>

  /** The code unit of a character of a Dafny literal; every literal in this model is ASCII. */
  function Unit(c: char): bv16 {
    if c as int < 0x10000 then (c as int) as bv16 else 0xFFFD
  }

  /** A Dafny string literal as a JavaScript string. */
  function Str(s: string): JsString {
    seq(|s|, i requires 0 <= i < |s| => Unit(s[i]))
  }

  /** A string that JavaScript treats as true: any but the empty one. */
  predicate IsTruthy(s: JsString) {
    s != []
  }

  /** An optional string (a request field, a prop, a ref) that passes a `!value` guard. */
  predicate Truthy(o: Option<JsString>) {
    o.Some? && IsTruthy(o.value)
  }

  // ---------------------------------------------------------------------------
  // trim

  /** The code units `String.prototype.trim` removes: ECMAScript WhiteSpace and LineTerminator. */
  predicate IsWhite(u: bv16) {
    || u == 0x09 || u == 0x0A || u == 0x0B || u == 0x0C || u == 0x0D || u == 0x20
    || u == 0xA0 || u == 0x1680 || (0x2000 <= u <= 0x200A) || u == 0x2028 || u == 0x2029
    || u == 0x202F || u == 0x205F || u == 0x3000 || u == 0xFEFF
  }

  /** A string that is empty after trimming (JavaScript `!s.trim()`). */
  predicate IsBlank(s: JsString) {
    forall i :: 0 <= i < |s| ==> IsWhite(s[i])
  }

  /** `s` without its leading white space: a suffix of `s` whose dropped prefix is blank. */
  function TrimStart(s: JsString): (r: JsString)
    ensures |r| <= |s| && r == s[|s| - |r|..]
    ensures IsBlank(s[..|s| - |r|])
    ensures r != [] ==> !IsWhite(r[0])
  {
    if s != [] && IsWhite(s[0]) then
      var r := TrimStart(s[1..]);
      assert s[1..][..|s| - 1 - |r|] == s[1..|s| - |r|];
      r
    else s
  }

  /** `s` without its trailing white space: a prefix of `s` whose dropped suffix is blank. */
  function TrimEnd(s: JsString): (r: JsString)
    ensures |r| <= |s| && r == s[..|r|]
    ensures IsBlank(s[|r|..])
    ensures r != [] ==> !IsWhite(r[|r| - 1])
  {
    if s != [] && IsWhite(s[|s| - 1]) then
      var r := TrimEnd(s[..|s| - 1]);
      assert s[..|s| - 1][|r|..] == s[|r|..|s| - 1];
      assert s[|r|..] == s[|r|..|s| - 1] + [s[|s| - 1]];
      r
    else s
  }

  /** `String.prototype.trim`. */
  function Trim(s: JsString): JsString {
    TrimEnd(TrimStart(s))
  }

  /** Trimming gives the empty string exactly when the string is blank. */
  lemma TrimEmptyIffBlank(s: JsString)
    ensures Trim(s) == [] <==> IsBlank(s)
  {
    var a := TrimStart(s);
    var k := |s| - |a|;
    if Trim(s) == [] {
      assert a == [] && s[..k] == s;
    }
  }

  /** Trimming keeps a contiguous slice of the input whose ends are not white space. */
  lemma TrimIsSlice(s: JsString)
    ensures exists lo, hi :: 0 <= lo <= hi <= |s| && Trim(s) == s[lo..hi]
    ensures Trim(s) != [] ==> !IsWhite(Trim(s)[0]) && !IsWhite(Trim(s)[|Trim(s)| - 1])
  {
    var lo := |s| - |TrimStart(s)|;
    SliceOfSuffix(s, lo, |Trim(s)|);
  }

  lemma SliceOfSuffix(s: JsString, lo: nat, k: nat)
    requires lo + k <= |s|
    ensures s[lo..][..k] == s[lo..lo + k]
  {
  }

  // ---------------------------------------------------------------------------
  // toUpperCase (ASCII letters)

  /** The upper-case form of one code unit; only the ASCII letters a-z change. */
  function UpperUnit(u: bv16): bv16 {
    if 0x61 <= u <= 0x7A then u - 0x20 else u
  }

  /** `String.prototype.toUpperCase`, restricted to ASCII letters. */
  function ToUpper(s: JsString): (r: JsString)
    ensures |r| == |s|
  {
    seq(|s|, i requires 0 <= i < |s| => UpperUnit(s[i]))
  }

  /** A string none of whose units `ToUpper` changes. */
  predicate HasNoLowerAscii(s: JsString) {
    forall i :: 0 <= i < |s| ==> !(0x61 <= s[i] <= 0x7A)
  }

  /** Upper-casing is idempotent: its result has no lower-case letter left, and such a string is fixed. */
  lemma ToUpperIdempotent(s: JsString)
    ensures HasNoLowerAscii(ToUpper(s))
    ensures HasNoLowerAscii(s) ==> ToUpper(s) == s
    ensures ToUpper(ToUpper(s)) == ToUpper(s)
  {
  }

  // ---------------------------------------------------------------------------
  // decimal numbers and padStart

  predicate IsDigit(u: bv16) {
    0x30 <= u <= 0x39
  }

  predicate AllDigits(s: JsString) {
    forall i :: 0 <= i < |s| ==> IsDigit(s[i])
  }

  /** The digit character of `d`. */
  function Digit(d: nat): bv16
    requires d < 10
  {
    0x30 + d as bv16
  }

  /** The number a digit character stands for. */
  function DigitValue(u: bv16): (d: nat)
    requires IsDigit(u)
    ensures d < 10
  {
    (u - 0x30) as nat
  }

  /** The number a string of digits denotes (what `parseInt(s, 10)` gives back). */
  function DigitsValue(s: JsString): nat
    requires AllDigits(s)
  {
    if s == [] then 0 else 10 * DigitsValue(s[..|s| - 1]) + DigitValue(s[|s| - 1])
  }

  /** `n.toString()` for a non-negative integer: its decimal digits, most significant first. */
  function Decimal(n: nat): (r: JsString)
    ensures |r| >= 1 && AllDigits(r)
    ensures n < 10 <==> |r| == 1
    ensures 10 <= n < 100 ==> |r| == 2
  {
    if n < 10 then [Digit(n)] else Decimal(n / 10) + [Digit(n % 10)]
  }

  /** Reading the decimal digits of `n` back gives `n`. */
  lemma {:induction false} DecimalValue(n: nat)
    ensures DigitsValue(Decimal(n)) == n
  {
    var r := Decimal(n);
    DigitRoundTrip(n % 10);
    if n >= 10 {
      assert r[..|r| - 1] == Decimal(n / 10);
      DecimalValue(n / 10);
      assert n == 10 * (n / 10) + n % 10;
    }
  }

  /** A digit character reads back as the digit it was made from. */
  lemma DigitRoundTrip(d: nat)
    requires d < 10
    ensures IsDigit(Digit(d)) && DigitValue(Digit(d)) == d
  {
  }

  /** `s.padStart(len, fill)` with a one-unit fill string. */
  function PadStart(s: JsString, len: nat, fill: bv16): (r: JsString)
    ensures |r| == if |s| >= len then |s| else len
    ensures r[|r| - |s|..] == s
    ensures forall i :: 0 <= i < |r| - |s| ==> r[i] == fill
  {
    if |s| >= len then s else seq(len - |s|, _ => fill) + s
  }

  /** Leading zeros do not change the number a digit string denotes. */
  lemma {:induction false} LeadingZerosValue(z: JsString, s: JsString)
    requires forall i :: 0 <= i < |z| ==> z[i] == 0x30
    requires AllDigits(s)
    ensures AllDigits(z + s) && DigitsValue(z + s) == DigitsValue(s)
    decreases |s|
  {
    if s == [] {
      assert z + s == z;
      ZerosValue(z);
    } else {
      assert (z + s)[..|z + s| - 1] == z + s[..|s| - 1];
      LeadingZerosValue(z, s[..|s| - 1]);
    }
  }

  /** A string of zeros denotes 0. */
  lemma {:induction false} ZerosValue(z: JsString)
    requires forall i :: 0 <= i < |z| ==> z[i] == 0x30
    ensures AllDigits(z) && DigitsValue(z) == 0
  {
    if z != [] {
      ZerosValue(z[..|z| - 1]);
    }
  }

  // ---------------------------------------------------------------------------
  // hexadecimal

  predicate IsLowerHex(u: bv16) {
    (0x30 <= u <= 0x39) || (0x61 <= u <= 0x66)
  }

  /** The lower-case hexadecimal digit of `d`. */
  function HexDigit(d: nat): (u: bv16)
    requires d < 16
    ensures IsLowerHex(u)
  {
    if d < 10 then 0x30 + d as bv16 else 0x57 + d as bv16
  }

  /**
   * Bytes as lower-case hexadecimal, two digits per byte: both
   * `b.toString(16).padStart(2, '0')` joined and Node's `buffer.toString('hex')`.
   */
  function Hex(bytes: seq<bv8>): (r: JsString)
    ensures |r| == 2 * |bytes|
    ensures forall i :: 0 <= i < |r| ==> IsLowerHex(r[i])
  {
    if bytes == [] then []
    else [HexDigit(bytes[0] as nat / 16), HexDigit(bytes[0] as nat % 16)] + Hex(bytes[1..])
  }

  // ---------------------------------------------------------------------------
  // split and join

  /** `s.split(sep)` for a one-unit separator: the pieces between separators, empty ones included. */
  function Split(s: JsString, sep: bv16): (pieces: seq<JsString>)
    ensures |pieces| >= 1
  {
    if s == [] then [[]]
    else
      var rest := Split(s[1..], sep);
      if s[0] == sep then [[]] + rest else [[s[0]] + rest[0]] + rest[1..]
  }

  /** `pieces.join(sep)`. */
  function Join(pieces: seq<JsString>, sep: bv16): JsString
    requires |pieces| >= 1
  {
    if |pieces| == 1 then pieces[0] else pieces[0] + [sep] + Join(pieces[1..], sep)
  }

  /** Splitting and joining with the same separator gives the string back, and no piece holds the separator. */
  lemma {:induction false} SplitJoin(s: JsString, sep: bv16)
    ensures Join(Split(s, sep), sep) == s
    ensures forall k, i :: 0 <= k < |Split(s, sep)| && 0 <= i < |Split(s, sep)[k]| ==> Split(s, sep)[k][i] != sep
  {
    if s != [] {
      var rest := Split(s[1..], sep);
      SplitJoin(s[1..], sep);
      if s[0] == sep {
        assert Split(s, sep)[1..] == rest;
      } else {
        var p := Split(s, sep);
        assert p[0] == [s[0]] + rest[0];
        if |rest| > 1 {
          assert p[1..] == rest[1..];
          assert Join(rest, sep) == rest[0] + [sep] + Join(rest[1..], sep);
        }
        forall k, i | 0 <= k < |p| && 0 <= i < |p[k]| ensures p[k][i] != sep {
          if k == 0 {
            if i > 0 { assert p[0][i] == rest[0][i - 1]; }
          } else {
            assert p[k] == rest[k];
          }
        }
      }
    }
  }
}
