/**
 Secrets as the vault and the OAuth service store them: sealed by an authenticated cipher, the
 16 bytes of the tag put after the ciphertext, and both that and the nonce in base64. The
 cipher itself, UTF-8 and base64 are functions of which only the laws below are assumed.
 */
module Cipher {
  import opened Schema

  type Bytes = seq<bv8>

  /** AES-256-GCM under the service's key, and the encodings around it. */
  datatype Crypto = Crypto(
    seal: (Bytes, Bytes) -> (Bytes, Bytes),            // nonce, plaintext: ciphertext, tag
    unseal: (Bytes, Bytes, Bytes) -> Option<Bytes>,    // nonce, ciphertext, tag: plaintext, if authentic
    utf8: string -> Bytes,
    text: Bytes -> string,
    base64: Bytes -> string,
    unbase64: string -> Bytes)

  /** What is assumed: what was sealed can be unsealed, tags have 16 bytes, and base64 loses
      nothing and is empty for no bytes only. Nothing is assumed of UTF-8, which loses
      unpaired surrogates. */
  ghost predicate Sound(c: Crypto) {
    && (forall iv, plain :: |c.seal(iv, plain).1| == 16
          && c.unseal(iv, c.seal(iv, plain).0, c.seal(iv, plain).1) == Some(plain))
    && (forall b :: c.unbase64(c.base64(b)) == b)
    && (forall b :: c.base64(b) == "" ==> b == [])
  }

  /** What reading gives back of a text: the text itself if it is well-formed Unicode. */
  function Readable(c: Crypto, text: string): string {
    c.text(c.utf8(text))
  }

  // ---------------------------------------------------------------- buffers

  /** An index of JavaScript's slice and subarray: negative ones count from the end. */
  function Index(i: int, length: nat): (n: nat)
    ensures n <= length
  {
    if i < 0 then (if length + i < 0 then 0 else length + i)
    else if i > length then length
    else i
  }

  function Slice(b: Bytes, from: int, to: int): Bytes {
    var (lo, hi) := (Index(from, |b|), Index(to, |b|));
    if lo <= hi then b[lo..hi] else []
  }

  /** payload.slice(0, -16) and payload.slice(-16) */
  function VaultSplit(payload: Bytes): (Bytes, Bytes) {
    (Slice(payload, 0, -16), Slice(payload, -16, |payload|))
  }

  /** payload.subarray(0, payload.length - 16) and payload.subarray(payload.length - 16) */
  function OAuthSplit(payload: Bytes): (Bytes, Bytes) {
    (Slice(payload, 0, |payload| - 16), Slice(payload, |payload| - 16, |payload|))
  }

  /** Both ways of splitting undo the framing. */
  lemma SplitFramed(ciphertext: Bytes, tag: Bytes)
    requires |tag| == 16
    ensures VaultSplit(ciphertext + tag) == (ciphertext, tag)
    ensures OAuthSplit(ciphertext + tag) == (ciphertext, tag)
  {
    var payload := ciphertext + tag;
    assert payload[0..|ciphertext|] == ciphertext && payload[|ciphertext|..|payload|] == tag;
  }

  /** A payload shorter than a tag is all tag to the vault; the OAuth service counts from its end
      twice. */
  lemma SplitsOfShort(payload: Bytes)
    requires |payload| < 16
    ensures VaultSplit(payload) == ([], payload)
    ensures var n := if |payload| < 8 then 0 else 2 * |payload| - 16;
      OAuthSplit(payload) == (payload[..n], payload[n..])
  {
    assert payload[0..] == payload && payload[0..|payload|] == payload;
  }

  /** They differ on exactly those payloads that are too short for a tag but longer than half
      of one. */
  lemma SplitsAgree(payload: Bytes)
    ensures VaultSplit(payload) == OAuthSplit(payload) <==> |payload| <= 8 || |payload| >= 16
  {
  }

  // ---------------------------------------------------------------- stored secrets

  datatype Ciphertext = Ciphertext(encrypted: string, iv: string)

  /** encryptCredential and encryptToken, with the random nonce as an input. */
  function Encrypt(c: Crypto, text: string, iv: Bytes): Ciphertext {
    var (ciphertext, tag) := c.seal(iv, c.utf8(text));
    Ciphertext(c.base64(ciphertext + tag), c.base64(iv))
  }

  function Decrypt(c: Crypto, split: Bytes -> (Bytes, Bytes), s: Ciphertext): Option<string> {
    var (ciphertext, tag) := split(c.unbase64(s.encrypted));
    match c.unseal(c.unbase64(s.iv), ciphertext, tag)
    case Some(plain) => Some(c.text(plain))
    case None => None
  }

  function DecryptCredential(c: Crypto, s: Ciphertext): Option<string> {
    Decrypt(c, VaultSplit, s)
  }

  function DecryptToken(c: Crypto, s: Ciphertext): Option<string> {
    Decrypt(c, OAuthSplit, s)
  }

  /** What is stored: the ciphertext under this nonce with its tag behind it, and the nonce. */
  lemma EncryptStores(c: Crypto, text: string, iv: Bytes)
    requires Sound(c)
    ensures var (s, sealed) := (Encrypt(c, text, iv), c.seal(iv, c.utf8(text)));
      c.unbase64(s.encrypted) == sealed.0 + sealed.1 && c.unbase64(s.iv) == iv
  {
  }

  /** What is read: the text of the unsealed plaintext, if the tag is authentic. Each service
      splits in its own way. */
  lemma DecryptReads(c: Crypto, s: Ciphertext)
    ensures
      var (nonce, payload) := (c.unbase64(s.iv), c.unbase64(s.encrypted));
      var (vault, oauth) := (VaultSplit(payload), OAuthSplit(payload));
      var (credential, token) := (c.unseal(nonce, vault.0, vault.1), c.unseal(nonce, oauth.0, oauth.1));
      && DecryptCredential(c, s) == (if credential.Some? then Some(c.text(credential.value)) else None)
      && DecryptToken(c, s) == (if token.Some? then Some(c.text(token.value)) else None)
  {
  }

  /** Under one key either way of splitting decrypts what was encrypted, and neither stored
      text is empty. */
  lemma DecryptEncrypted(c: Crypto, text: string, iv: Bytes)
    requires Sound(c) && iv != []
    ensures DecryptCredential(c, Encrypt(c, text, iv)) == Some(Readable(c, text))
    ensures DecryptToken(c, Encrypt(c, text, iv)) == Some(Readable(c, text))
    ensures Encrypt(c, text, iv).encrypted != "" && Encrypt(c, text, iv).iv != ""
  {
    var (ciphertext, tag) := c.seal(iv, c.utf8(text));
    SplitFramed(ciphertext, tag);
    assert c.unbase64(c.base64(ciphertext + tag)) == ciphertext + tag;
  }
}
