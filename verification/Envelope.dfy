/**
 The envelope: a payload split into chunks, each encrypted under one derived key with a counter
 nonce and carrying a signed manifest.
 */
module Envelope {
  import opened Text
  import opened Primitives
  import opened Streams
  import opened Sorting
  import opened Format

  const CHUNK_SIZE: nat := 64 * 1024
  const MAX_CHUNK_INDEX: nat := 16_777_215
  const VERSION: nat := 2
  function NoSalt(): Bytes { seq(32, _ => '\0') }

  datatype ChunkManifest = ChunkManifest(sequence: nat, chunkSize: nat, timestamp: nat, formatHint: Bytes,
                                         keyDerivationSalt: Bytes, pbkdf2Iterations: nat)

  datatype Chunk = Chunk(sequence: nat, data: Bytes, manifest: Bytes, nonce: Bytes)

  datatype Metadata = Metadata(createdAt: nat, payloadSize: nat, chunkCount: nat, aead: nat, sig: nat, hash: nat)

  datatype Envelope = Envelope(version: nat, salt: Bytes, chunks: seq<Chunk>, verifyingKey: Bytes,
                               beneficiary: Bytes, metadata: Metadata)

  /** The `bincode` encodings used inside a chunk. */
  datatype Codec = Codec(putManifest: ChunkManifest -> Bytes, getManifest: Bytes -> Option<ChunkManifest>,
                         putSigned: SignedManifest -> Bytes, getSigned: Bytes -> Option<SignedManifest>)

  ghost predicate CodecLaws(b: Codec) {
    && (forall m: ChunkManifest :: b.getManifest(b.putManifest(m)) == Some(m))
    && (forall s: SignedManifest :: b.getSigned(b.putSigned(s)) == Some(s))
  }

  // ── Key and nonce derivation ───────────────────────────────────────────────

  datatype Secrets = Secrets(key: Bytes, prefix: Bytes)

  /** The key and the nonce prefix are the two parts of the 40 derived bytes. */
  function Expand(okm: Bytes): Option<Secrets> {
    if |okm| != 40 then None else Some(Secrets(okm[..32], okm[32..]))
  }

  /** `derive_shared_encryption_key`: a zero shared secret is refused. */
  function Derive(c: Crypto, mine: Bytes, theirs: Bytes, salt: Bytes): Option<Secrets> {
    if AllZero(c.dh(mine, theirs)) then None else Expand(c.hkdf(salt, c.dh(mine, theirs)))
  }

  /** Eight bytes of prefix, the low three bytes of the index, and the last-chunk flag. */
  function NonceFor(prefix: Bytes, index: nat, last: bool): Bytes {
    var be := BigEndian(U32(index), 4);
    prefix + (if |be| == 4 then be[1..] else "") + [if last then 255 as char else 0 as char]
  }

  function AadFor(c: Crypto, index: nat, nonce: Bytes, manifest: Bytes, size: nat): Bytes {
    BuildAad(c.hash("ENVELOPE_V1"), index, nonce, c.hash(manifest), size)
  }

  // ── Sealing ────────────────────────────────────────────────────────────────

  /** The manifest that describes chunk `i`. */
  function ManifestFor(i: nat, data: Bytes, now: nat): ChunkManifest {
    ChunkManifest(i, U32(|data|), now, "application/octet-stream", NoSalt(), 0)
  }

  /** `create_encrypted_chunk`. */
  function ChunkFor(c: Crypto, b: Codec, sk: Bytes, s: Secrets, i: nat, data: Bytes, last: bool, now: nat)
    : (r: Option<Chunk>)
    ensures r.Some? <==> i <= MAX_CHUNK_INDEX
  {
    if i > MAX_CHUNK_INDEX then None else
      var nonce := NonceFor(s.prefix, i, last);
      var manifest := b.putManifest(ManifestFor(i, data, now));
      var signed := SignedManifest(manifest, c.sign(sk, c.hash(manifest)), c.publicOf(sk));
      Some(Chunk(i, c.seal(s.key, nonce, AadFor(c, i, nonce, manifest, U32(|data|)), data),
                 b.putSigned(signed), nonce))
  }

  function DivCeil(n: nat, d: nat): nat
    requires d > 0
  {
    (n + d - 1) / d
  }

  function MetadataFor(payload: Bytes, now: nat): Metadata {
    Metadata(now, |payload|, U32(DivCeil(|payload|, CHUNK_SIZE)), 1, 1, 1)
  }

  /** Every chunk is the encryption of its piece, in order. */
  ghost predicate IsChunking(c: Crypto, b: Codec, sk: Bytes, s: Secrets, pieces: seq<Bytes>, now: nat,
                             chunks: seq<Chunk>) {
    |chunks| == |pieces| && ChunkedTo(c, b, sk, s, pieces, now, chunks)
  }

  ghost predicate ChunkedTo(c: Crypto, b: Codec, sk: Bytes, s: Secrets, pieces: seq<Bytes>, now: nat,
                            chunks: seq<Chunk>) {
    && |chunks| <= |pieces|
    && forall i :: 0 <= i < |chunks| ==>
         ChunkFor(c, b, sk, s, i, pieces[i], i == |pieces| - 1, now) == Some(chunks[i])
  }

  /** What sealing promises of the envelope it returns. */
  ghost predicate Sealed(c: Crypto, b: Codec, payload: Bytes, sk: Bytes, beneficiary: Bytes, salt: Bytes, now: nat,
                         e: Envelope) {
    && Derive(c, sk, beneficiary, salt).Some?
    && IsChunking(c, b, sk, Derive(c, sk, beneficiary, salt).value, Split(payload, CHUNK_SIZE), now, e.chunks)
    && e == Envelope(VERSION, salt, e.chunks, c.publicOf(sk), beneficiary, MetadataFor(payload, now))
  }

  /**
   `seal`, given the salt it draws and the clock it reads. It fails only for a zero shared secret or a
   payload of more than 2^24 chunks.
   */
  method Seal(c: Crypto, b: Codec, payload: Bytes, sk: Bytes, beneficiary: Bytes, salt: Bytes, now: nat)
    returns (r: Option<Envelope>)
    ensures r.Some? <==> Derive(c, sk, beneficiary, salt).Some? && |payload| <= (MAX_CHUNK_INDEX + 1) * CHUNK_SIZE
    ensures r.Some? ==> Sealed(c, b, payload, sk, beneficiary, salt, now, r.value)
  {
    hide ChunkFor, AadFor, NonceFor, Derive;
    var metadata := MetadataFor(payload, now);
    var s := Derive(c, sk, beneficiary, salt);
    var pieces := Split(payload, CHUNK_SIZE);
    SplitCount(payload, CHUNK_SIZE);
    if s.None? { return None; }
    var chunks := [];
    while |chunks| < |pieces|
      invariant ChunkedTo(c, b, sk, s.value, pieces, now, chunks)
      invariant |chunks| <= MAX_CHUNK_INDEX + 1
      decreases |pieces| - |chunks|
    {
      var i := |chunks|;
      var chunk := ChunkFor(c, b, sk, s.value, i, pieces[i], i == |pieces| - 1, now);
      if chunk.None? { return None; }
      chunks := chunks + [chunk.value];
    }
    r := Some(Envelope(VERSION, salt, chunks, c.publicOf(sk), beneficiary, metadata));
  }

  // ── Verifying ──────────────────────────────────────────────────────────────

  function ChunkKey(chunk: Chunk): nat { chunk.sequence }

  /** The sequence numbers are those from 0 to `chunk_count` - 1, each once, in any order. */
  predicate InSequence(e: Envelope) {
    && |e.chunks| == e.metadata.chunkCount
    && multiset(Keys(ChunkKey, e.chunks)) == multiset(Iota(|e.chunks|))
  }

  /** `verify_chunk_signature`: the envelope's key, not the one beside the signature. */
  predicate ChunkSigned(c: Crypto, b: Codec, key: Bytes, chunk: Chunk) {
    match b.getSigned(chunk.manifest)
    case None => false
    case Some(s) => c.verifies(key, c.hash(s.manifest), s.sig)
  }

  ghost predicate Verified(c: Crypto, b: Codec, e: Envelope) {
    && e.version == VERSION
    && (forall chunk :: chunk in e.chunks ==> ChunkSigned(c, b, e.verifyingKey, chunk))
    && InSequence(e)
  }

  lemma SortedSequences(chunks: seq<Chunk>)
    ensures Numbered(Itself, Sort(Itself, Keys(ChunkKey, chunks)))
            <==> multiset(Keys(ChunkKey, chunks)) == multiset(Iota(|chunks|))
  {
    var sequences := Keys(ChunkKey, chunks);
    assert Keys(Itself, sequences) == sequences;
    hide Numbered, Sort, Keys, Iota;
    SortedKeysAreIota(Itself, sequences);
  }

  /** `verify_chunk_sequence`: sort a copy of the numbers and compare it with 0, 1, 2, …. */
  method VerifyChunkSequence(e: Envelope) returns (ok: bool)
    ensures ok <==> InSequence(e)
  {
    hide Sort, Keys, Iota;
    if |e.chunks| != e.metadata.chunkCount { return false; }
    SortedSequences(e.chunks);
    var sequences := Sort(Itself, Keys(ChunkKey, e.chunks));
    var i := 0;
    while i < |sequences|
      invariant i <= |sequences|
      invariant forall k :: 0 <= k < i ==> Itself(sequences[k]) == k
    {
      if sequences[i] != i {
        assert Itself(sequences[i]) != i;
        return false;
      }
      i := i + 1;
    }
    return true;
  }

  /** `verify`. */
  method Verify(c: Crypto, b: Codec, e: Envelope) returns (ok: bool)
    ensures ok <==> Verified(c, b, e)
  {
    hide InSequence, ChunkSigned;
    if e.version != VERSION { return false; }
    var i := 0;
    while i < |e.chunks|
      invariant i <= |e.chunks|
      invariant forall k :: 0 <= k < i ==> ChunkSigned(c, b, e.verifyingKey, e.chunks[k])
    {
      if !ChunkSigned(c, b, e.verifyingKey, e.chunks[i]) { return false; }
      i := i + 1;
    }
    ok := VerifyChunkSequence(e);
  }

  // ── Unsealing ──────────────────────────────────────────────────────────────

  /** `decrypt_chunk_v2`: the nonce is rebuilt from the signed manifest, not read from the chunk. */
  function DecryptChunk(c: Crypto, b: Codec, s: Secrets, chunk: Chunk, last: bool): Option<Bytes> {
    match b.getSigned(chunk.manifest)
    case None => None
    case Some(signed) =>
      match b.getManifest(signed.manifest)
      case None => None
      case Some(m) =>
        if m.sequence > MAX_CHUNK_INDEX then None else
          var nonce := NonceFor(s.prefix, m.sequence, last);
          c.open(s.key, nonce, AadFor(c, m.sequence, nonce, signed.manifest, m.chunkSize), chunk.data)
  }

  /** The plaintext of the first `n` chunks, if they all decrypt. */
  function OpenedTo(c: Crypto, b: Codec, s: Secrets, chunks: seq<Chunk>, n: nat): Option<Bytes>
    requires n <= |chunks|
  {
    if n == 0 then Some("") else
      var before := OpenedTo(c, b, s, chunks, n - 1);
      var piece := DecryptChunk(c, b, s, chunks[n - 1], n == |chunks|);
      if before.None? || piece.None? then None else Some(before.value + piece.value)
  }

  lemma {:induction false} OpenedStaysFailed(c: Crypto, b: Codec, s: Secrets, chunks: seq<Chunk>, n: nat, m: nat)
    requires n <= m <= |chunks| && OpenedTo(c, b, s, chunks, n).None?
    ensures OpenedTo(c, b, s, chunks, m).None?
    decreases m
  {
    hide DecryptChunk;
    if n < m { OpenedStaysFailed(c, b, s, chunks, n, m - 1); }
  }

  /** The chunks in order of their numbers, decrypted, if they make up the promised size. */
  function Recovered(c: Crypto, b: Codec, e: Envelope, s: Secrets): Option<Bytes> {
    var payload := OpenedTo(c, b, s, Sort(ChunkKey, e.chunks), |e.chunks|);
    if payload.Some? && |payload.value| == e.metadata.payloadSize then payload else None
  }

  /** What `unseal` answers. */
  ghost function Unsealed(c: Crypto, b: Codec, e: Envelope, sk: Bytes): Option<Bytes> {
    if !Verified(c, b, e) || Derive(c, sk, e.verifyingKey, e.salt).None? then None else
      Recovered(c, b, e, Derive(c, sk, e.verifyingKey, e.salt).value)
  }

  /** `unseal`. */
  method Unseal(c: Crypto, b: Codec, e: Envelope, sk: Bytes) returns (r: Option<Bytes>)
    ensures r == Unsealed(c, b, e, sk)
  {
    hide Verified, Derive, DecryptChunk;
    if e.version != VERSION {
      assert !Verified(c, b, e) by { VerifiedVersion(c, b, e); }
      return None;
    }
    var ok := Verify(c, b, e);
    if !ok { return None; }
    var sorted := Sort(ChunkKey, e.chunks);
    var s := Derive(c, sk, e.verifyingKey, e.salt);
    if s.None? { return None; }
    var payload := "";
    var i := 0;
    while i < |sorted|
      invariant i <= |sorted|
      invariant OpenedTo(c, b, s.value, sorted, i) == Some(payload)
    {
      var piece := DecryptChunk(c, b, s.value, sorted[i], i == |sorted| - 1);
      if piece.None? {
        OpenedStaysFailed(c, b, s.value, sorted, i + 1, |sorted|);
        return None;
      }
      payload := payload + piece.value;
      i := i + 1;
    }
    return if |payload| == e.metadata.payloadSize then Some(payload) else None;
  }

  lemma VerifiedVersion(c: Crypto, b: Codec, e: Envelope)
    ensures Verified(c, b, e) ==> e.version == VERSION
  {
  }
}
