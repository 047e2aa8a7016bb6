/** The stored form of a secret: base64 of iv, authentication tag and ciphertext in one field. */
module AesFraming {
  import opened Wrappers
  import opened Platform

  const IV_LENGTH: nat := 12
  const AUTH_TAG_LENGTH: nat := 16

  /** AES-256-GCM, UTF-8 and base64 as the platform provides them. */
  datatype Library = Library(
    cipher: (Bytes, Bytes, Bytes) -> (Bytes, Bytes),
    decipher: (Bytes, Bytes, Bytes, Bytes) -> Option<Bytes>,
    encodeText: string -> Bytes,
    decodeText: Bytes -> string,
    toBase64: Bytes -> string,
    fromBase64: string -> Bytes,
    randomIv: nat -> Bytes)

  ghost predicate Sound(l: Library) {
    (forall key, iv, plain :: |l.cipher(key, iv, plain).1| == 16) &&
    (forall key, iv, plain ::
       l.decipher(key, iv, l.cipher(key, iv, plain).0, l.cipher(key, iv, plain).1) == Some(plain)) &&
    (forall text :: l.decodeText(l.encodeText(text)) == text) &&
    (forall raw :: l.fromBase64(l.toBase64(raw)) == raw) &&
    (forall draw :: |l.randomIv(draw)| == 12)
  }

  /** Deciphering succeeds only on what enciphering under the same key and iv produced. */
  ghost predicate Authentic(l: Library) {
    forall key, iv, body, tag ::
      |tag| == 16 && l.decipher(key, iv, body, tag).Some? ==>
        l.cipher(key, iv, l.decipher(key, iv, body, tag).value) == (body, tag)
  }

  /** `subarray`: bounds beyond the end are cut back to it. */
  function Subarray(raw: Bytes, from: nat, to: nat): Bytes
    requires from <= to
  {
    raw[if from < |raw| then from else |raw|..if to < |raw| then to else |raw|]
  }

  function Encrypt(l: Library, plaintext: string, key: Bytes, draw: nat): string {
    var iv := l.randomIv(draw);
    var (ciphertext, authTag) := l.cipher(key, iv, l.encodeText(plaintext));
    l.toBase64(iv + authTag + ciphertext)
  }

  function Decrypt(l: Library, payload: string, key: Bytes): Option<string> {
    var raw := l.fromBase64(payload);
    var iv := Subarray(raw, 0, IV_LENGTH);
    var authTag := Subarray(raw, IV_LENGTH, IV_LENGTH + AUTH_TAG_LENGTH);
    var ciphertext := Subarray(raw, IV_LENGTH + AUTH_TAG_LENGTH,
                               if |raw| < IV_LENGTH + AUTH_TAG_LENGTH then IV_LENGTH + AUTH_TAG_LENGTH else |raw|);
    var plain := l.decipher(key, iv, ciphertext, authTag);
    if plain.None? then None else Some(l.decodeText(plain.value))
  }

  lemma FrameParts(iv: Bytes, tag: Bytes, body: Bytes)
    requires |iv| == IV_LENGTH && |tag| == AUTH_TAG_LENGTH
    ensures var raw := iv + tag + body;
            Subarray(raw, 0, IV_LENGTH) == iv &&
            Subarray(raw, IV_LENGTH, IV_LENGTH + AUTH_TAG_LENGTH) == tag &&
            Subarray(raw, IV_LENGTH + AUTH_TAG_LENGTH, |raw|) == body
  {
  }

  lemma DecryptInvertsEncrypt(l: Library, plaintext: string, key: Bytes, draw: nat)
    requires Sound(l)
    ensures Decrypt(l, Encrypt(l, plaintext, key, draw), key) == Some(plaintext)
  {
    var iv := l.randomIv(draw);
    var (body, tag) := l.cipher(key, iv, l.encodeText(plaintext));
    assert tag == l.cipher(key, iv, l.encodeText(plaintext)).1 && body == l.cipher(key, iv, l.encodeText(plaintext)).0;
    FrameParts(iv, tag, body);
    assert l.fromBase64(l.toBase64(iv + tag + body)) == iv + tag + body;
    assert l.decipher(key, iv, body, tag) == Some(l.encodeText(plaintext));
    assert l.decodeText(l.encodeText(plaintext)) == plaintext;
  }

  /** A full-length payload that decrypts is, byte for byte, the frame that encrypting its plaintext
      under the same key and its own iv gives: any changed byte is rejected. */
  lemma OnlyFramesDecrypt(l: Library, payload: string, key: Bytes)
    requires Authentic(l) && |l.fromBase64(payload)| >= 28
    requires Decrypt(l, payload, key).Some?
    ensures var raw := l.fromBase64(payload);
            var iv := raw[..12];
            exists plain :: Decrypt(l, payload, key) == Some(l.decodeText(plain)) &&
                            raw == iv + l.cipher(key, iv, plain).1 + l.cipher(key, iv, plain).0
  {
    var raw := l.fromBase64(payload);
    var end := IV_LENGTH + AUTH_TAG_LENGTH;
    var iv, tag, body := raw[..IV_LENGTH], raw[IV_LENGTH..end], raw[end..];
    assert Subarray(raw, 0, IV_LENGTH) == iv && Subarray(raw, IV_LENGTH, end) == tag &&
           Subarray(raw, end, |raw|) == body;
    var plain := l.decipher(key, iv, body, tag).value;
    assert l.cipher(key, iv, plain) == (body, tag);
    assert raw == iv + tag + body;
  }

  /** The stored bytes: 12 of iv, 16 of tag, then the ciphertext of the text. */
  lemma FrameLayout(l: Library, plaintext: string, key: Bytes, draw: nat)
    requires Sound(l)
    ensures var raw, iv := l.fromBase64(Encrypt(l, plaintext, key, draw)), l.randomIv(draw);
            var (ciphertext, tag) := l.cipher(key, iv, l.encodeText(plaintext));
            |raw| == 28 + |ciphertext| && raw[..12] == iv && raw[12..28] == tag && raw[28..] == ciphertext
  {
    var iv := l.randomIv(draw);
    var (ciphertext, tag) := l.cipher(key, iv, l.encodeText(plaintext));
    assert tag == l.cipher(key, iv, l.encodeText(plaintext)).1;
    assert l.fromBase64(l.toBase64(iv + tag + ciphertext)) == iv + tag + ciphertext;
  }

  /** The framed library is a platform whose encryption round-trips. */
  lemma FramingRoundTrips(l: Library, rest: Platform)
    requires Sound(l)
    ensures RoundTrips(rest.(seal := (key: Bytes, draw: nat, text: string) => Encrypt(l, text, key, draw),
                             open := (key: Bytes, payload: string) => Decrypt(l, payload, key)))
  {
    forall key, draw, text
      ensures Decrypt(l, Encrypt(l, text, key, draw), key) == Some(text)
    {
      DecryptInvertsEncrypt(l, text, key, draw);
    }
  }
}
