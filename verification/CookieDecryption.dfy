/**
 * Recovering a browser cookie from its encrypted form: block padding (section 6.3 of RFC 5652) is removed, and a
 * 32-byte digest that newer browsers put in front is told apart from the value by being unprintable.
 */
module CookieDecryption {
  import opened Sequences
  import opened ByteStrings

  type Key = Bytes

  datatype Decrypted = Value(bytes: Bytes) | TooShort | NoKey | NotAligned | BadPadding | NotPrintable

  const BLOCK_SIZE: nat := 16
  const DIGEST_SIZE: nat := 32
  const V11: Bytes := [0x76, 0x31, 0x31]
  const V10: Bytes := [0x76, 0x31, 0x30]

  /** The block cipher in chaining mode (section 6.2 of NIST SP 800-38A), as a pair of functions on whole blocks. */
  datatype Cipher = Cipher(encrypt: (Key, Bytes) -> Bytes, decrypt: (Key, Bytes) -> Bytes)

  /** Decryption works block by block, so it keeps the length. */
  ghost predicate KeepsLength(c: Cipher) {
    forall key, ct :: |c.decrypt(key, ct)| == |ct|
  }

  /** The two are inverse on whole blocks. */
  ghost predicate InversePair(c: Cipher) {
    forall key, plain :: |plain| % BLOCK_SIZE == 0 ==>
      c.decrypt(key, c.encrypt(key, plain)) == plain
  }

  predicate Printable(b: Bytes) {
    b != [] && forall i :: 0 <= i < |b| ==> 0x20 <= b[i] <= 0x7e
  }

  method IsPrintable(b: Bytes) returns (r: bool)
    ensures r == Printable(b)
  {
    if b == [] {
      return false;
    }
    for i := 0 to |b|
      invariant forall k :: 0 <= k < i ==> 0x20 <= b[k] <= 0x7e
    {
      if b[i] < 0x20 || b[i] > 0x7e {
        return false;
      }
    }
    r := true;
  }

  /** Fills up to the next block boundary, a whole block when already on one, with the count as every byte. */
  function Pad(plain: Bytes): (padded: Bytes)
    ensures |padded| % BLOCK_SIZE == 0 && |padded| > |plain| && plain <= padded
  {
    var n := BLOCK_SIZE - |plain| % BLOCK_SIZE;
    plain + seq(n, i => n as byte)
  }

  /** Removes the padding named by the last byte, then a digest if one stands in front, then insists on text. */
  function Unwrap(out: Bytes): Decrypted
    requires out != []
  {
    var pad := out[|out| - 1] as int;
    if pad <= 0 || pad > BLOCK_SIZE || pad > |out| then BadPadding
    else
      var text := out[..|out| - pad];
      var value :=
        if |text| > DIGEST_SIZE && Printable(text[DIGEST_SIZE..]) && !Printable(text[..DIGEST_SIZE])
        then text[DIGEST_SIZE..] else text;
      if Printable(value) then Value(value) else NotPrintable
  }

  /** Values without a known prefix are stored in the clear; the rest need a key and whole blocks. */
  function Decrypt(cipher: Cipher, blob: Bytes, keyV11: Option<Key>, keyV10: Option<Key>): Decrypted
    requires KeepsLength(cipher)
  {
    if |blob| < 4 then TooShort
    else if blob[..3] != V11 && blob[..3] != V10 then Value(blob)
    else
      var key := if blob[..3] == V11 then keyV11 else keyV10;
      var ct := blob[3..];
      if key.None? then NoKey
      else if |ct| % BLOCK_SIZE != 0 then NotAligned
      else
        Unwrap(cipher.decrypt(key.value, ct))
  }

  /** Unpadding undoes padding, and then only the question of the digest is left. */
  lemma UnwrapOfPad(text: Bytes)
    ensures Unwrap(Pad(text)) ==
      var value :=
        if |text| > DIGEST_SIZE && Printable(text[DIGEST_SIZE..]) && !Printable(text[..DIGEST_SIZE])
        then text[DIGEST_SIZE..] else text;
      if Printable(value) then Value(value) else NotPrintable
  {
    var padded := Pad(text);
    var n := BLOCK_SIZE - |text| % BLOCK_SIZE;
    assert padded[|padded| - 1] as int == n;
    assert padded[..|padded| - n] == text;
  }

  /** A printable value comes back from its padded form at every length, also when longer than a digest. */
  lemma PlainValueComesBack(v: Bytes)
    requires Printable(v)
    ensures Unwrap(Pad(v)) == Value(v)
  {
    UnwrapOfPad(v);
    if |v| > DIGEST_SIZE {
      assert forall i :: 0 <= i < DIGEST_SIZE ==> v[..DIGEST_SIZE][i] == v[i];
    }
  }

  /** Behind a digest it comes back exactly when the digest is not itself all printable. */
  lemma DigestIsStrippedIff(h: Bytes, v: Bytes)
    requires Printable(v) && |h| == DIGEST_SIZE
    ensures Unwrap(Pad(h + v)) == Value(v) <==> !Printable(h)
    ensures Printable(h) ==> Unwrap(Pad(h + v)) == Value(h + v)
  {
    UnwrapOfPad(h + v);
    assert (h + v)[..DIGEST_SIZE] == h && (h + v)[DIGEST_SIZE..] == v;
    assert |h + v| > |v|;
  }

  /** What a browser stores for a value, under either key, with or without a digest in front. */
  function Stored(cipher: Cipher, prefix: Bytes, key: Key, digest: Bytes, v: Bytes): Bytes {
    prefix + cipher.encrypt(key, Pad(digest + v))
  }

  /** Decryption undoes storing, down to unwrapping what was padded. */
  lemma StoredDecrypts(cipher: Cipher, newest: bool, keyV11: Key, keyV10: Key, digest: Bytes, v: Bytes)
    requires KeepsLength(cipher) && InversePair(cipher)
    ensures var blob := Stored(cipher, if newest then V11 else V10, if newest then keyV11 else keyV10, digest, v);
      Decrypt(cipher, blob, Some(keyV11), Some(keyV10)) == Unwrap(Pad(digest + v))
  {
    var prefix, key := if newest then V11 else V10, if newest then keyV11 else keyV10;
    var ct := cipher.encrypt(key, Pad(digest + v));
    assert cipher.decrypt(key, ct) == Pad(digest + v);
    assert (prefix + ct)[..3] == prefix && (prefix + ct)[3..] == ct;
  }

  /** Stored cookies are recovered: always without a digest, and with one exactly when it is not all printable. */
  lemma StoredValueComesBack(cipher: Cipher, newest: bool, keyV11: Key, keyV10: Key, digest: Bytes, v: Bytes)
    requires KeepsLength(cipher) && InversePair(cipher) && Printable(v) && (digest == [] || |digest| == DIGEST_SIZE)
    ensures var blob := Stored(cipher, if newest then V11 else V10, if newest then keyV11 else keyV10, digest, v);
      Decrypt(cipher, blob, Some(keyV11), Some(keyV10)) == Value(v) <==> digest == [] || !Printable(digest)
  {
    StoredDecrypts(cipher, newest, keyV11, keyV10, digest, v);
    if digest == [] {
      assert digest + v == v;
      PlainValueComesBack(v);
    } else {
      DigestIsStrippedIff(digest, v);
    }
  }

  /** Whatever the bytes, an encrypted cookie that decrypts at all yields printable text. */
  lemma DecryptedIsPrintable(cipher: Cipher, blob: Bytes, keyV11: Option<Key>, keyV10: Option<Key>)
    requires KeepsLength(cipher) && |blob| >= 4 && (blob[..3] == V11 || blob[..3] == V10)
    requires Decrypt(cipher, blob, keyV11, keyV10).Value?
    ensures Printable(Decrypt(cipher, blob, keyV11, keyV10).bytes)
  {}

  /** r is what the last byte, the digest question and printability make of decrypted bytes. */
  ghost predicate Unwrapped(out: Bytes, r: Decrypted) {
    out != [] &&
    var pad := out[|out| - 1] as int;
    && (r.BadPadding? <==> !(1 <= pad <= BLOCK_SIZE && pad <= |out|))
    && (r.Value? || r.BadPadding? || r.NotPrintable?)
    && (r.Value? ==> Printable(r.bytes) && pad <= |out|)
    && (r.Value? ==> (
        r.bytes == out[..|out| - pad] ||
        (|out| - pad > DIGEST_SIZE && r.bytes == out[DIGEST_SIZE..|out| - pad] && !Printable(out[..DIGEST_SIZE]))))
    && (r.NotPrintable? ==> pad <= |out| && !Printable(out[..|out| - pad]))
  }

  /** Takes off padding and digest, in place. */
  method UnwrapValue(decrypted: Bytes) returns (r: Decrypted)
    requires decrypted != []
    ensures r == Unwrap(decrypted) && Unwrapped(decrypted, r)
  {
    var out := decrypted;
    var pad := out[|out| - 1] as int;
    if pad <= 0 || pad > BLOCK_SIZE || pad > |out| {
      return BadPadding;
    }
    out := out[..|out| - pad];
    if |out| > DIGEST_SIZE {
      var tail := IsPrintable(out[DIGEST_SIZE..]);
      var first := IsPrintable(out[..DIGEST_SIZE]);
      if tail && !first {
        assert out[..DIGEST_SIZE] == decrypted[..DIGEST_SIZE];
        assert out[DIGEST_SIZE..] == decrypted[DIGEST_SIZE..|decrypted| - pad];
        out := out[DIGEST_SIZE..];
      }
    }
    var text := IsPrintable(out);
    r := if text then Value(out) else NotPrintable;
  }

  method DecryptValue(cipher: Cipher, blob: Bytes, keyV11: Option<Key>, keyV10: Option<Key>) returns (r: Decrypted)
    requires KeepsLength(cipher)
    ensures r == Decrypt(cipher, blob, keyV11, keyV10)
    ensures r.TooShort? <==> |blob| < 4
    ensures |blob| >= 4 && blob[..3] != V11 && blob[..3] != V10 ==> r == Value(blob)
    ensures r.NoKey? <==> (
      |blob| >= 4 && ((blob[..3] == V11 && keyV11.None?) || (blob[..3] == V10 && keyV10.None?)))
    ensures r.NotAligned? <==> (
      |blob| >= 4 && (|blob| - 3) % BLOCK_SIZE != 0 &&
      ((blob[..3] == V11 && keyV11.Some?) || (blob[..3] == V10 && keyV10.Some?)))
    ensures |blob| >= 4 && (|blob| - 3) % BLOCK_SIZE == 0 && blob[..3] == V11 && keyV11.Some? ==>
      Unwrapped(cipher.decrypt(keyV11.value, blob[3..]), r)
    ensures |blob| >= 4 && (|blob| - 3) % BLOCK_SIZE == 0 && blob[..3] == V10 && keyV10.Some? ==>
      Unwrapped(cipher.decrypt(keyV10.value, blob[3..]), r)
  {
    if |blob| < 4 {
      return TooShort;
    }
    var key;
    if blob[..3] == V11 {
      key := keyV11;
    } else if blob[..3] == V10 {
      key := keyV10;
    } else {
      return Value(blob);
    }
    if key.None? {
      return NoKey;
    }
    var ct := blob[3..];
    if |ct| == 0 || |ct| % BLOCK_SIZE != 0 {
      return NotAligned;
    }
    r := UnwrapValue(cipher.decrypt(key.value, ct));
  }
}
