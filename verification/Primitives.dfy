/**
 The cryptographic primitives, as functions about which only the laws a correct implementation
 satisfies are assumed. No law says a hash is injective or a signature unforgeable: results that
 depend on either end in an explicit pair of colliding inputs.
 */
module Primitives {
  import opened Text

  datatype Crypto = Crypto(
    /** BLAKE3. */
    hash: Bytes -> Bytes,
    /** Signing secret to its `ed25519:<base64>` public string. */
    publicOf: Bytes -> Bytes,
    /** `sign_manifest`: secret, message. */
    sign: (Bytes, Bytes) -> Bytes,
    /** `verify_manifest` returning `Ok(true)`: public key, message, signature. */
    verifies: (Bytes, Bytes, Bytes) -> bool,
    /** AEAD seal: key, nonce, associated data, plaintext. */
    seal: (Bytes, Bytes, Bytes, Bytes) -> Bytes,
    /** AEAD open: key, nonce, associated data, ciphertext. */
    open: (Bytes, Bytes, Bytes, Bytes) -> Option<Bytes>,
    /** Key-agreement secret to its `x25519:<base64>` public string. */
    agreementOf: Bytes -> Bytes,
    /** Single-shot HPKE seal: ephemeral randomness, recipient, info, associated data, plaintext. */
    hpkeSeal: (Bytes, Bytes, Bytes, Bytes, Bytes) -> (Bytes, Bytes),
    /** Single-shot HPKE open: recipient secret, encapsulated key, info, associated data, ciphertext. */
    hpkeOpen: (Bytes, Bytes, Bytes, Bytes, Bytes) -> Option<Bytes>,
    /** X25519 after the Ed25519 conversion: my secret, their public key. */
    dh: (Bytes, Bytes) -> Bytes,
    /** HKDF-SHA256 extract and expand to 40 bytes: salt, input key material. */
    hkdf: (Bytes, Bytes) -> Bytes,
    /** PBKDF2-HMAC-SHA256: passphrase, salt, iterations. */
    pbkdf2: (Bytes, Bytes, nat) -> Bytes,
    /** Standard base64. */
    base64: Bytes -> Bytes,
    unbase64: Bytes -> Option<Bytes>)

  const DIGEST_LEN: nat := 32
  const TAG_LEN: nat := 16
  /** `ed25519:` and 64 bytes in base64. */
  const SIGNATURE_LEN: nat := 96

  /** What both uses of the key agreement refuse as a shared secret. */
  predicate AllZero(s: Bytes) {
    forall i :: 0 <= i < |s| ==> s[i] == '\0'
  }

  type Key32 = k: Bytes | |k| == 32 witness Zeros(32)
  type Nonce24 = n: Bytes | |n| == 24 witness Zeros(24)

  ghost predicate HashLaws(c: Crypto) {
    forall m: Bytes :: |c.hash(m)| == DIGEST_LEN && AllBytes(c.hash(m))
  }

  ghost predicate SignatureLaws(c: Crypto) {
    forall sk: Bytes, m: Bytes :: c.verifies(c.publicOf(sk), m, c.sign(sk, m)) && |c.sign(sk, m)| == SIGNATURE_LEN
  }

  ghost predicate AeadLaws(c: Crypto) {
    && (forall k: Bytes, n: Bytes, a: Bytes, p: Bytes :: c.open(k, n, a, c.seal(k, n, a, p)) == Some(p))
    && (forall k: Bytes, n: Bytes, a: Bytes, p: Bytes :: |c.seal(k, n, a, p)| == |p| + TAG_LEN)
  }

  ghost predicate HpkeLaws(c: Crypto) {
    forall r: Bytes, sk: Bytes, info: Bytes, aad: Bytes, p: Bytes ::
      var (enc, wrapped) := c.hpkeSeal(r, c.agreementOf(sk), info, aad, p);
      c.hpkeOpen(sk, enc, info, aad, wrapped) == Some(p)
  }

  ghost predicate AgreementLaws(c: Crypto) {
    && (forall a: Bytes, b: Bytes :: c.dh(a, c.publicOf(b)) == c.dh(b, c.publicOf(a)))
    && (forall s: Bytes, k: Bytes :: |c.hkdf(s, k)| == 40)
  }

  ghost predicate Base64Laws(c: Crypto) {
    forall x: Bytes :: c.unbase64(c.base64(x)) == Some(x)
  }

  ghost predicate Lawful(c: Crypto) {
    && HashLaws(c) && SignatureLaws(c) && AeadLaws(c)
    && HpkeLaws(c) && AgreementLaws(c) && Base64Laws(c)
  }

  /** Two different messages with one digest. */
  ghost predicate Collides(c: Crypto, x: Bytes, y: Bytes) {
    x != y && c.hash(x) == c.hash(y)
  }

  /** One signature that verifies for two different messages under one key. */
  predicate Transfers(c: Crypto, key: Bytes, x: Bytes, y: Bytes, sig: Bytes) {
    x != y && c.verifies(key, x, sig) && c.verifies(key, y, sig)
  }

  function TrivialOpen(t: Bytes): Option<Bytes> {
    if |t| < TAG_LEN then None else Some(t[..|t| - TAG_LEN])
  }

  /** A toy implementation: constant hash, transparent ciphers. */
  function Trivial(): Crypto {
    Crypto(
      (m: Bytes) => Zeros(DIGEST_LEN),
      (sk: Bytes) => sk,
      (sk: Bytes, m: Bytes) => Zeros(SIGNATURE_LEN),
      (pk: Bytes, m: Bytes, s: Bytes) => true,
      (k: Bytes, n: Bytes, a: Bytes, p: Bytes) => p + Zeros(TAG_LEN),
      (k: Bytes, n: Bytes, a: Bytes, t: Bytes) => TrivialOpen(t),
      (sk: Bytes) => sk,
      (r: Bytes, pk: Bytes, i: Bytes, a: Bytes, p: Bytes) => (r, p),
      (sk: Bytes, e: Bytes, i: Bytes, a: Bytes, w: Bytes) => Some(w),
      (a: Bytes, b: Bytes) => "1",
      (s: Bytes, k: Bytes) => Zeros(40),
      (p: Bytes, s: Bytes, n: nat) => "",
      (x: Bytes) => x,
      (x: Bytes) => Some(x))
  }

  lemma TrivialOpens(p: Bytes)
    ensures TrivialOpen(p + Zeros(TAG_LEN)) == Some(p)
  {
    assert (p + Zeros(TAG_LEN))[..|p|] == p;
  }

  /** The assumed laws hold of something, so nothing below is vacuous. */
  lemma LawsAreSatisfiable()
    ensures Lawful(Trivial())
  {
    var c := Trivial();
    forall k: Bytes, n: Bytes, a: Bytes, p: Bytes
      ensures c.open(k, n, a, c.seal(k, n, a, p)) == Some(p)
    {
      TrivialOpens(p);
    }
  }

  /** Formatting of a digest as a chronicle id, `b3:<hex>`. */
  function ArchiveId(digest: Bytes): Bytes { "b3:" + Hex(digest) }

  lemma ArchiveIdInjective(d: Bytes, e: Bytes)
    requires AllBytes(d) && AllBytes(e) && ArchiveId(d) == ArchiveId(e)
    ensures d == e
  {
    HexRoundTrip(d);
    HexRoundTrip(e);
    assert ArchiveId(d)[3..] == Hex(d) && ArchiveId(e)[3..] == Hex(e);
  }

  /** `b3:` and 64 hexadecimal digits. */
  predicate IsArchiveId(s: Bytes) {
    |s| == 67 && s[..3] == "b3:" && forall i :: 3 <= i < 67 ==> HexValue(s[i]).Some?
  }

  lemma ArchiveIdShape(d: Bytes)
    requires AllBytes(d) && |d| == DIGEST_LEN
    ensures IsArchiveId(ArchiveId(d))
  {
    HexRoundTrip(d);
    var s := ArchiveId(d);
    forall i | 3 <= i < 67 ensures HexValue(s[i]).Some? {
      assert s[i] == Hex(d)[i - 3];
    }
  }
}
