/**
 * The client's message cipher: every code unit of the text is XORed with the key's code unit
 * at the same position modulo the key length, and the result is base64-encoded with `btoa`.
 * Either step can throw; the source catches the exception and returns its input unchanged.
 */
module Encryption {
  import opened Common
  import opened JsText
  import opened Base64

  /**
   * The XOR loop shared by `encrypt` and `decrypt`. With an empty key the first iteration
   * reads `key[NaN]`, which is `undefined`, and `charCodeAt` on it throws: no result then,
   * unless the loop never runs.
   */
  function XorWithKey(text: JsString, key: JsString): Option<JsString> {
    if text == [] then Some([])
    else if key == [] then None
    else Some(XorUnits(text, key))
  }

  /** Unit `i` of `text` XORed with unit `i mod |key|` of `key`. */
  function XorUnits(text: JsString, key: JsString): JsString
    requires key != []
  {
    seq(|text|, i requires 0 <= i < |text| => text[i] ^ key[i % |key|])
  }

  /** What `encrypt` returns: the base64 of the XORed text, or the text itself when a step throws. */
  function Encrypted(key: JsString, text: JsString): JsString {
    match XorWithKey(text, key)
    case None => text
    case Some(x) => Btoa(x).GetOr(text)
  }

  /** What `decrypt` returns: the XOR of the base64-decoded text, or the input when a step throws. */
  function Decrypted(key: JsString, encryptedText: JsString): JsString {
    match Atob(encryptedText)
    case None => encryptedText
    case Some(d) => XorWithKey(d, key).GetOr(encryptedText)
  }

  /** The fixed key every client uses: "superSecretRoomKey123!". */
  const StaticRoomKey: JsString :=
    [0x73, 0x75, 0x70, 0x65, 0x72, 0x53, 0x65, 0x63, 0x72, 0x65, 0x74,
     0x52, 0x6F, 0x6F, 0x6D, 0x4B, 0x65, 0x79, 0x31, 0x32, 0x33, 0x21]

  /** `generateKey`: 32 random bytes as 64 lower-case hexadecimal digits. */
  method GenerateKey() returns (key: JsString)
    ensures |key| == 64
    ensures forall i :: 0 <= i < |key| ==> IsLowerHex(key[i])
  {
    assert |seq(32, _ => 0 as bv8)| == 32;
    var bytes: seq<bv8> :| |bytes| == 32;
    key := Hex(bytes);
  }

  /**
   * The loop both `encrypt` and `decrypt` run, appending `text[i] ^ key[i % key.length]` one
   * unit at a time; `None` stands for the exception an empty key raises on the first unit.
   */
  method XorLoop(text: JsString, key: JsString) returns (r: Option<JsString>)
    ensures r == XorWithKey(text, key)
  {
    var acc: JsString := [];
    for i := 0 to |text|
      invariant |acc| == i
      invariant i > 0 ==> key != []
      invariant forall j :: 0 <= j < i ==> acc[j] == text[j] ^ key[j % |key|]
    {
      if key == [] {
        return None;
      }
      acc := acc + [text[i] ^ key[i % |key|]];
    }
    assert text == [] || XorUnits(text, key) == acc;
    r := Some(acc);
  }

  class SimpleEncryption {
    var key: JsString

    /** `new SimpleEncryption(key)`: the given key when truthy, a generated one otherwise. */
    constructor (initial: Option<JsString>)
      ensures Truthy(initial) ==> key == initial.value
      ensures !Truthy(initial) ==>
        |key| == 64 && forall i :: 0 <= i < |key| ==> IsLowerHex(key[i])
    {
      if Truthy(initial) {
        key := initial.value;
      } else {
        var generated := GenerateKey();
        key := generated;
      }
    }

    /** `encrypt`: the XOR loop, then `btoa`; on any exception, `text`. */
    method Encrypt(text: JsString) returns (r: JsString)
      ensures r == Encrypted(key, text)
    {
      var encrypted := XorLoop(text, key);
      if encrypted.None? {
        return text;
      }
      match Btoa(encrypted.value)
      case None =>
        r := text;
      case Some(b) =>
        r := b;
    }

    /** `decrypt`: `atob`, then the XOR loop; on any exception, `encryptedText`. */
    method Decrypt(encryptedText: JsString) returns (r: JsString)
      ensures r == Decrypted(key, encryptedText)
    {
      var decoded := Atob(encryptedText);
      if decoded.None? {
        return encryptedText;
      }
      var decrypted := XorLoop(decoded.value, key);
      if decrypted.None? {
        return encryptedText;
      }
      r := decrypted.value;
    }

    method GetKey() returns (k: JsString)
      ensures k == key
    {
      k := key;
    }

    method SetKey(k: JsString)
      modifies this
      ensures key == k
    {
      key := k;
    }
  }

  /** The exported `encryption` instance, built from the fixed key. */
  method NewRoomEncryption() returns (e: SimpleEncryption)
    ensures fresh(e) && e.key == StaticRoomKey
  {
    e := new SimpleEncryption(Some(StaticRoomKey));
  }

  // ---------------------------------------------------------------------------
  // properties

  /** The XOR step keeps the length and applies key unit `i mod |key|` to unit `i`; it fails only for an empty key. */
  lemma XorShape(text: JsString, key: JsString)
    ensures XorWithKey(text, key).None? <==> key == [] && text != []
    ensures XorWithKey(text, key).Some? ==>
      var x := XorWithKey(text, key).value;
      |x| == |text| && forall i :: 0 <= i < |text| ==> x[i] == text[i] ^ key[i % |key|]
  {
  }

  /** XOR with the same key undoes itself. */
  lemma XorInvolutive(text: JsString, key: JsString)
    requires key != []
    ensures XorWithKey(XorWithKey(text, key).value, key) == Some(text)
  {
    if text != [] {
      var x := XorUnits(text, key);
      var y := XorUnits(x, key);
      forall i | 0 <= i < |text|
        ensures y[i] == text[i]
      {
        XorSelfInverse(text[i], key[i % |key|]);
      }
      assert y == text;
    }
  }

  lemma XorSelfInverse(a: bv16, b: bv16)
    ensures (a ^ b) ^ b == a
  {
  }

  /** XORing bytes with byte-sized key units gives bytes, so `btoa` accepts the result. */
  lemma XorKeepsBinary(text: JsString, key: JsString)
    requires key != [] && IsBinary(text) && IsBinary(key)
    ensures IsBinary(XorWithKey(text, key).value)
  {
    var x := XorWithKey(text, key).value;
    forall i | 0 <= i < |x|
      ensures x[i] <= 0xFF
    {
      ByteXor(text[i], key[i % |key|]);
    }
  }

  lemma ByteXor(a: bv16, b: bv16)
    requires a <= 0xFF && b <= 0xFF
    ensures a ^ b <= 0xFF
  {
  }

  /** `decrypt(encrypt(t)) == t` for a non-empty key and text whose code units are below 256. */
  lemma DecryptEncrypt(key: JsString, text: JsString)
    requires key != [] && IsBinary(key) && IsBinary(text)
    ensures Decrypted(key, Encrypted(key, text)) == text
  {
    var x := XorWithKey(text, key).value;
    XorKeepsBinary(text, key);
    AtobBtoa(x);
    XorInvolutive(text, key);
  }

  /** `encrypt("")` is "" whatever the key: the loop does not run and `btoa("")` is "". */
  lemma EncryptEmpty(key: JsString)
    ensures Encrypted(key, []) == []
  {
    assert EncodeUnpadded([]) == [];
  }

  /** When some XORed unit exceeds a byte, `btoa` throws and `encrypt` returns its input. */
  lemma EncryptFallsBack(key: JsString, text: JsString, i: nat)
    requires key != [] && i < |text|
    requires text[i] ^ key[i % |key|] > 0xFF
    ensures Encrypted(key, text) == text
  {
    var x := XorWithKey(text, key).value;
    assert x[i] > 0xFF;
  }

  /** When the input is not valid base64, `decrypt` returns it unchanged. */
  lemma DecryptFallsBack(key: JsString, encryptedText: JsString)
    requires Atob(encryptedText).None?
    ensures Decrypted(key, encryptedText) == encryptedText
  {
  }

  /** The fixed key is made of byte-sized units, so the shared instance round-trips every binary text. */
  lemma StaticKeyRoundTrip(text: JsString)
    requires IsBinary(text)
    ensures Decrypted(StaticRoomKey, Encrypted(StaticRoomKey, text)) == text
  {
    assert IsBinary(StaticRoomKey);
    DecryptEncrypt(StaticRoomKey, text);
  }
}
