/**
 What sealing and unsealing an envelope amount to: the payload comes back, the order chunks are
 stored in is irrelevant, and no nonce is used twice.
 */
module EnvelopeProofs {
  import opened Text
  import opened Primitives
  import opened Streams
  import opened Sorting
  import opened Format
  import opened Envelope

  // ── Nonces ─────────────────────────────────────────────────────────────────

  /** Dropping the high byte of a big-endian integer leaves its low bytes. */
  lemma {:induction false} LowBytes(n: nat, width: nat)
    ensures |BigEndian(n, width + 1)| == width + 1
    ensures BigEndian(n, width + 1)[1..] == BigEndian(n, width)
  {
    BigEndianLength(n, width + 1);
    if width > 0 {
      LowBytes(n / 256, width - 1);
      assert BigEndian(n, width + 1) == BigEndian(n / 256, width) + [(n % 256) as char];
    } else {
      assert BigEndian(n, 1)[1..] == "";
    }
  }

  lemma NonceSlice(prefix: Bytes, i: nat, last: bool)
    requires i <= MAX_CHUNK_INDEX
    ensures var n := NonceFor(prefix, i, last);
            && |n| == |prefix| + 4 && n[..|prefix|] == prefix && n[|prefix|..|prefix| + 3] == BigEndian(i, 3)
            && n[|prefix| + 3] as int == if last then 255 else 0
  {
    LowBytes(i, 3);
    BigEndianLength(i, 3);
    hide BigEndian;
    assert U32(i) == i;
  }

  /** The index and the last-chunk flag both show in the nonce. */
  lemma NoncesDistinct(prefix: Bytes, i: nat, j: nat, last: bool, last': bool)
    requires i <= MAX_CHUNK_INDEX && j <= MAX_CHUNK_INDEX && (i != j || last != last')
    ensures NonceFor(prefix, i, last) != NonceFor(prefix, j, last')
  {
    hide NonceFor, BigEndian;
    NonceSlice(prefix, i, last);
    NonceSlice(prefix, j, last');
    Widths();
    if BigEndian(i, 3) == BigEndian(j, 3) { BigEndianInjective(i, j, 3); }
  }

  // ── One chunk ──────────────────────────────────────────────────────────────

  lemma ChunkFields(c: Crypto, b: Codec, sk: Bytes, s: Secrets, i: nat, data: Bytes, last: bool, now: nat)
    requires i <= MAX_CHUNK_INDEX
    ensures var chunk := ChunkFor(c, b, sk, s, i, data, last, now).value;
            chunk.sequence == i && chunk.nonce == NonceFor(s.prefix, i, last)
  {
    hide NonceFor, AadFor, ManifestFor;
  }

  /** A chunk decrypts to its piece, and its signature verifies under the sealer's key. */
  lemma ChunkOpens(c: Crypto, b: Codec, sk: Bytes, s: Secrets, i: nat, data: Bytes, last: bool, now: nat)
    requires SignatureLaws(c) && AeadLaws(c) && CodecLaws(b) && i <= MAX_CHUNK_INDEX
    ensures var chunk := ChunkFor(c, b, sk, s, i, data, last, now).value;
            && ChunkSigned(c, b, c.publicOf(sk), chunk)
            && DecryptChunk(c, b, s, chunk, last) == Some(data)
  {
    hide NonceFor, AadFor, U32;
    var m := ManifestFor(i, data, now);
    var bytes := b.putManifest(m);
    var signed := SignedManifest(bytes, c.sign(sk, c.hash(bytes)), c.publicOf(sk));
    assert b.getSigned(b.putSigned(signed)) == Some(signed) && b.getManifest(bytes) == Some(m);
    assert c.verifies(c.publicOf(sk), c.hash(bytes), signed.sig);
  }

  // ── A sealed envelope ──────────────────────────────────────────────────────

  lemma PieceCount(payload: Bytes)
    ensures |Split(payload, CHUNK_SIZE)| == DivCeil(|payload|, CHUNK_SIZE)
  {
    SplitCount(payload, CHUNK_SIZE);
  }

  lemma ChunkIndexFits(c: Crypto, b: Codec, sk: Bytes, s: Secrets, pieces: seq<Bytes>, now: nat,
                       chunks: seq<Chunk>, i: nat)
    requires ChunkedTo(c, b, sk, s, pieces, now, chunks) && i < |chunks|
    ensures i <= MAX_CHUNK_INDEX
    ensures chunks[i] == ChunkFor(c, b, sk, s, i, pieces[i], i == |pieces| - 1, now).value
  {
  }

  /**
   On success every nonce in the envelope is different, there are at most 2^24 chunks, and the cast of
   the chunk count to 32 bits keeps its value.
   */
  lemma SealedCounts(c: Crypto, b: Codec, payload: Bytes, sk: Bytes, beneficiary: Bytes, salt: Bytes, now: nat,
                     e: Envelope)
    requires Sealed(c, b, payload, sk, beneficiary, salt, now, e)
    ensures |e.chunks| <= 0x100_0000
    ensures e.metadata.chunkCount == DivCeil(|payload|, CHUNK_SIZE) == |e.chunks|
    ensures Numbered(ChunkKey, e.chunks)
    ensures forall i, j :: 0 <= i < j < |e.chunks| ==> e.chunks[i].nonce != e.chunks[j].nonce
  {
    hide ChunkFor, Derive, NonceFor, DivCeil;
    var s, pieces := Derive(c, sk, beneficiary, salt).value, Split(payload, CHUNK_SIZE);
    PieceCount(payload);
    if e.chunks != [] { ChunkIndexFits(c, b, sk, s, pieces, now, e.chunks, |e.chunks| - 1); }
    forall i | 0 <= i < |e.chunks|
      ensures e.chunks[i].sequence == i && e.chunks[i].nonce == NonceFor(s.prefix, i, i == |pieces| - 1)
    {
      ChunkIndexFits(c, b, sk, s, pieces, now, e.chunks, i);
      ChunkFields(c, b, sk, s, i, pieces[i], i == |pieces| - 1, now);
    }
    forall i, j | 0 <= i < j < |e.chunks| ensures e.chunks[i].nonce != e.chunks[j].nonce {
      NoncesDistinct(s.prefix, i, j, i == |pieces| - 1, j == |pieces| - 1);
    }
  }

  lemma NumberedIsSorted(chunks: seq<Chunk>)
    requires Numbered(ChunkKey, chunks)
    ensures Sort(ChunkKey, chunks) == chunks
    ensures multiset(Keys(ChunkKey, chunks)) == multiset(Iota(|chunks|))
  {
    NumberedKeys(ChunkKey, chunks);
    NumberedDistinct(ChunkKey, chunks);
    assert Sorted(ChunkKey, chunks);
    hide Sort, Sorted, KeysDistinct, Numbered;
    SortedIsUnique(ChunkKey, chunks, Sort(ChunkKey, chunks));
  }

  lemma {:induction false} OpensPieces(c: Crypto, b: Codec, sk: Bytes, s: Secrets, pieces: seq<Bytes>, now: nat,
                                       chunks: seq<Chunk>, n: nat)
    requires SignatureLaws(c) && AeadLaws(c) && CodecLaws(b)
    requires IsChunking(c, b, sk, s, pieces, now, chunks) && n <= |chunks|
    ensures OpenedTo(c, b, s, chunks, n) == Some(Concat(pieces[..n]))
    decreases n
  {
    hide ChunkFor, DecryptChunk, SignatureLaws, AeadLaws, CodecLaws;
    if n > 0 {
      OpensPieces(c, b, sk, s, pieces, now, chunks, n - 1);
      ChunkIndexFits(c, b, sk, s, pieces, now, chunks, n - 1);
      ChunkOpens(c, b, sk, s, n - 1, pieces[n - 1], n == |pieces|, now);
      assert pieces[..n] == pieces[..n - 1] + [pieces[n - 1]];
      ConcatAppend(pieces[..n - 1], pieces[n - 1]);
    }
  }

  lemma SealedVerifies(c: Crypto, b: Codec, payload: Bytes, sk: Bytes, beneficiary: Bytes, salt: Bytes, now: nat,
                       e: Envelope)
    requires SignatureLaws(c) && AeadLaws(c) && CodecLaws(b)
    requires Sealed(c, b, payload, sk, beneficiary, salt, now, e)
    ensures Verified(c, b, e)
  {
    hide ChunkFor, ChunkSigned, DecryptChunk, Derive, DivCeil, Numbered, SignatureLaws, AeadLaws, CodecLaws;
    var s, pieces := Derive(c, sk, beneficiary, salt).value, Split(payload, CHUNK_SIZE);
    SealedCounts(c, b, payload, sk, beneficiary, salt, now, e);
    NumberedIsSorted(e.chunks);
    forall chunk | chunk in e.chunks ensures ChunkSigned(c, b, e.verifyingKey, chunk) {
      var i :| 0 <= i < |e.chunks| && e.chunks[i] == chunk;
      ChunkIndexFits(c, b, sk, s, pieces, now, e.chunks, i);
      ChunkOpens(c, b, sk, s, i, pieces[i], i == |pieces| - 1, now);
    }
  }

  /** Both ends of the key agreement derive the same secrets. */
  lemma SharedSecrets(c: Crypto, mine: Bytes, theirs: Bytes, salt: Bytes)
    requires AgreementLaws(c)
    ensures Derive(c, mine, c.publicOf(theirs), salt) == Derive(c, theirs, c.publicOf(mine), salt)
  {
  }

  lemma SealedRecovers(c: Crypto, b: Codec, payload: Bytes, sk: Bytes, beneficiary: Bytes, salt: Bytes, now: nat,
                       e: Envelope)
    requires SignatureLaws(c) && AeadLaws(c) && CodecLaws(b)
    requires Sealed(c, b, payload, sk, beneficiary, salt, now, e)
    ensures Recovered(c, b, e, Derive(c, sk, beneficiary, salt).value) == Some(payload)
  {
    hide Derive, OpenedTo, Numbered, Sort, Concat, ChunkedTo, DivCeil, Keys, Iota;
    hide SignatureLaws, AeadLaws, CodecLaws;
    var s, pieces := Derive(c, sk, beneficiary, salt).value, Split(payload, CHUNK_SIZE);
    SealedCounts(c, b, payload, sk, beneficiary, salt, now, e);
    NumberedIsSorted(e.chunks);
    OpensPieces(c, b, sk, s, pieces, now, e.chunks, |e.chunks|);
    assert pieces[..|e.chunks|] == pieces;
    SplitPieces(payload, CHUNK_SIZE);
  }

  /** The beneficiary gets the payload back, whatever it was, the empty one included. */
  lemma SealThenUnseal(c: Crypto, b: Codec, payload: Bytes, sk: Bytes, reader: Bytes, salt: Bytes, now: nat,
                       e: Envelope)
    requires SignatureLaws(c) && AeadLaws(c) && AgreementLaws(c) && CodecLaws(b)
    requires Sealed(c, b, payload, sk, c.publicOf(reader), salt, now, e)
    ensures Unsealed(c, b, e, reader) == Some(payload)
  {
    hide Derive, Verified, Recovered, IsChunking, SignatureLaws, AeadLaws, AgreementLaws, CodecLaws;
    SharedSecrets(c, sk, reader, salt);
    SealedVerifies(c, b, payload, sk, c.publicOf(reader), salt, now, e);
    SealedRecovers(c, b, payload, sk, c.publicOf(reader), salt, now, e);
  }

  // ── Stored order ───────────────────────────────────────────────────────────

  lemma SameMembers<T>(a: seq<T>, b: seq<T>, x: T)
    requires multiset(a) == multiset(b)
    ensures x in a <==> x in b
  {
    assert x in a <==> x in multiset(a);
    assert x in b <==> x in multiset(b);
  }

  /** Rearranging the chunks changes neither what `verify` says nor what `unseal` returns. */
  lemma OrderIrrelevant(c: Crypto, b: Codec, e: Envelope, chunks: seq<Chunk>, sk: Bytes)
    requires multiset(chunks) == multiset(e.chunks)
    ensures Verified(c, b, e.(chunks := chunks)) <==> Verified(c, b, e)
    ensures Unsealed(c, b, e.(chunks := chunks), sk) == Unsealed(c, b, e, sk)
  {
    hide ChunkSigned, OpenedTo, Derive, Sort, Keys, Iota, KeysDistinct;
    var f := e.(chunks := chunks);
    SameLength(chunks, e.chunks);
    SameElementsSameKeys(ChunkKey, chunks, e.chunks);
    forall x ensures x in chunks <==> x in e.chunks { SameMembers(chunks, e.chunks, x); }
    if Verified(c, b, e) {
      IotaKeysDistinct(ChunkKey, e.chunks);
      SameSort(e.chunks, chunks);
    }
  }

  lemma SameSort(a: seq<Chunk>, b: seq<Chunk>)
    requires multiset(a) == multiset(b) && KeysDistinct(ChunkKey, a)
    ensures Sort(ChunkKey, a) == Sort(ChunkKey, b)
  {
    SameElementsDistinct(ChunkKey, a, Sort(ChunkKey, a));
    hide Sort, Sorted, KeysDistinct;
    SortedIsUnique(ChunkKey, Sort(ChunkKey, a), Sort(ChunkKey, b));
  }

  /** `seal`, any rearrangement of the stored chunks, then `unseal` by the beneficiary. */
  method SealShuffleUnseal(c: Crypto, b: Codec, payload: Bytes, sk: Bytes, reader: Bytes, salt: Bytes, now: nat,
                           shuffle: seq<Chunk> -> seq<Chunk>)
    returns (r: Option<Bytes>)
    requires SignatureLaws(c) && AeadLaws(c) && AgreementLaws(c) && CodecLaws(b)
    requires forall s: seq<Chunk> :: multiset(shuffle(s)) == multiset(s)
    ensures r == if Derive(c, sk, c.publicOf(reader), salt).Some? && |payload| <= (MAX_CHUNK_INDEX + 1) * CHUNK_SIZE
                 then Some(payload) else None
  {
    hide SignatureLaws, AeadLaws, AgreementLaws, CodecLaws, Derive, Sealed, Unsealed;
    var e := Seal(c, b, payload, sk, c.publicOf(reader), salt, now);
    if e.None? { return None; }
    SealThenUnseal(c, b, payload, sk, reader, salt, now, e.value);
    OrderIrrelevant(c, b, e.value, shuffle(e.value.chunks), reader);
    r := Unseal(c, b, e.value.(chunks := shuffle(e.value.chunks)), reader);
  }

  // ── Verification and unsealing, written out ────────────────────────────────

  /** The chunks in the order of their numbers, which count from 0 and leave none out. */
  predicate Arranged(e: Envelope, order: seq<Chunk>) {
    && multiset(order) == multiset(e.chunks) && |e.chunks| == e.metadata.chunkCount
    && forall i :: 0 <= i < |order| ==> order[i].sequence == i
  }

  /** The signed manifest of the chunk can be read, and its signature is one of `key`. */
  predicate SignedUnder(c: Crypto, b: Codec, key: Bytes, chunk: Chunk) {
    var s := b.getSigned(chunk.manifest);
    s.Some? && c.verifies(key, c.hash(s.value.manifest), s.value.sig)
  }

  lemma ArrangedMeans(e: Envelope, order: seq<Chunk>)
    ensures InSequence(e) && order == Sort(ChunkKey, e.chunks) <==> Arranged(e, order)
  {
    var sorted := Sort(ChunkKey, e.chunks);
    SameLength(sorted, e.chunks);
    SortedKeysAreIota(ChunkKey, e.chunks);
    if Arranged(e, order) {
      SameLength(order, e.chunks);
      assert Numbered(ChunkKey, order);
      NumberedIsSorted(order);
      SameElementsSameKeys(ChunkKey, order, e.chunks);
      NumberedDistinct(ChunkKey, order);
      SameSort(order, e.chunks);
    }
  }

  /** `verify` in full: version, one chunk per number, and every signature under the envelope's own key. */
  lemma VerifiedMeans(c: Crypto, b: Codec, e: Envelope)
    ensures Verified(c, b, e) <==>
              && e.version == 2
              && (exists order :: Arranged(e, order))
              && forall i :: 0 <= i < |e.chunks| ==> SignedUnder(c, b, e.verifyingKey, e.chunks[i])
  {
    hide Sort, InSequence, Arranged;
    forall order ensures InSequence(e) && order == Sort(ChunkKey, e.chunks) <==> Arranged(e, order) { ArrangedMeans(e, order); }
    if InSequence(e) { assert Arranged(e, Sort(ChunkKey, e.chunks)); }
    if forall i :: 0 <= i < |e.chunks| ==> SignedUnder(c, b, e.verifyingKey, e.chunks[i]) {
      forall chunk | chunk in e.chunks ensures ChunkSigned(c, b, e.verifyingKey, chunk) {
        var i :| 0 <= i < |e.chunks| && e.chunks[i] == chunk;
        assert SignedUnder(c, b, e.verifyingKey, e.chunks[i]);
      }
    }
    if Verified(c, b, e) {
      forall i | 0 <= i < |e.chunks| ensures SignedUnder(c, b, e.verifyingKey, e.chunks[i]) {
        assert ChunkSigned(c, b, e.verifyingKey, e.chunks[i]);
      }
    }
  }

  /** One chunk without a signature of the envelope's key, whatever key lies beside it, and nothing is accepted or opened. */
  lemma ForeignSignatureRefused(c: Crypto, b: Codec, e: Envelope, i: nat, sk: Bytes)
    requires i < |e.chunks| && !SignedUnder(c, b, e.verifyingKey, e.chunks[i])
    ensures !Verified(c, b, e) && Unsealed(c, b, e, sk) == None
  {
    hide Verified, SignedUnder, Recovered, Derive;
    VerifiedMeans(c, b, e);
  }

  /** The nonce of a chunk, byte by byte. */
  function NonceBytes(prefix: Bytes, index: nat, last: bool): Bytes {
    prefix + BigEndian(index, 3) + [if last then 255 as char else 0 as char]
  }

  lemma NonceIs(prefix: Bytes, index: nat, last: bool)
    requires index <= MAX_CHUNK_INDEX
    ensures NonceFor(prefix, index, last) == NonceBytes(prefix, index, last)
  {
    LowBytes(index, 3);
    hide BigEndian;
    assert U32(index) == index;
  }

  /** What the bytes of a chunk are bound to. */
  function BoundTo(c: Crypto, index: nat, nonce: Bytes, manifest: Bytes, size: nat): Bytes {
    c.hash("ENVELOPE_V1") + BigEndian(index, 8) + nonce + c.hash(manifest) + BigEndian(size, 4)
  }

  /** The chunk opens to `piece`, under the nonce its signed manifest and its place call for. */
  predicate ChunkReads(c: Crypto, b: Codec, key: Bytes, prefix: Bytes, chunk: Chunk, last: bool, piece: Bytes) {
    var s := b.getSigned(chunk.manifest);
    && s.Some?
    && var m := b.getManifest(s.value.manifest);
       && m.Some? && m.value.sequence <= 0xFF_FFFF
       && var nonce := NonceBytes(prefix, m.value.sequence, last);
          c.open(key, nonce, BoundTo(c, m.value.sequence, nonce, s.value.manifest, m.value.chunkSize), chunk.data) == Some(piece)
  }

  lemma ChunkReadsMeans(c: Crypto, b: Codec, s: Secrets, chunk: Chunk, last: bool, piece: Bytes)
    ensures DecryptChunk(c, b, s, chunk, last) == Some(piece) <==> ChunkReads(c, b, s.key, s.prefix, chunk, last, piece)
  {
    hide BigEndian, NonceFor, NonceBytes;
    var signed := b.getSigned(chunk.manifest);
    if signed.Some? {
      var m := b.getManifest(signed.value.manifest);
      if m.Some? && m.value.sequence <= MAX_CHUNK_INDEX { NonceIs(s.prefix, m.value.sequence, last); }
    }
  }

  /** The chunks in order open to `pieces`; the last one says that it is the last. */
  predicate AllRead(c: Crypto, b: Codec, key: Bytes, prefix: Bytes, order: seq<Chunk>, pieces: seq<Bytes>) {
    |pieces| == |order| && forall i :: 0 <= i < |order| ==> ChunkReads(c, b, key, prefix, order[i], i == |order| - 1, pieces[i])
  }

  lemma {:induction false} OpenedGives(c: Crypto, b: Codec, s: Secrets, chunks: seq<Chunk>, n: nat) returns (pieces: seq<Bytes>)
    requires n <= |chunks| && OpenedTo(c, b, s, chunks, n).Some?
    ensures |pieces| == n && OpenedTo(c, b, s, chunks, n) == Some(Concat(pieces))
    ensures forall i :: 0 <= i < n ==> ChunkReads(c, b, s.key, s.prefix, chunks[i], i == |chunks| - 1, pieces[i])
    decreases n
  {
    hide DecryptChunk, ChunkReads, Concat;
    if n == 0 {
      pieces := [];
      assert Concat(pieces) == "" by { NothingRead(); }
    } else {
      var before := OpenedGives(c, b, s, chunks, n - 1);
      var p := DecryptChunk(c, b, s, chunks[n - 1], n == |chunks|).value;
      ChunkReadsMeans(c, b, s, chunks[n - 1], n == |chunks|, p);
      ConcatAppend(before, p);
      pieces := before + [p];
    }
  }

  lemma NothingRead()
    ensures Concat([]) == ""
  {
  }

  lemma {:induction false} OpenedTakes(c: Crypto, b: Codec, s: Secrets, chunks: seq<Chunk>, pieces: seq<Bytes>, n: nat)
    requires AllRead(c, b, s.key, s.prefix, chunks, pieces) && n <= |chunks|
    ensures OpenedTo(c, b, s, chunks, n) == Some(Concat(pieces[..n]))
    decreases n
  {
    hide DecryptChunk, ChunkReads, Concat;
    if n == 0 {
      NothingRead();
      assert pieces[..0] == [];
    } else {
      OpenedTakes(c, b, s, chunks, pieces, n - 1);
      ChunkReadsMeans(c, b, s, chunks[n - 1], n == |chunks|, pieces[n - 1]);
      ConcatAppend(pieces[..n - 1], pieces[n - 1]);
      assert pieces[..n] == pieces[..n - 1] + [pieces[n - 1]];
    }
  }

  /** The agreed key and nonce prefix: a shared secret that is not zero, expanded to 40 bytes and cut at 32. */
  predicate Agreed(c: Crypto, mine: Bytes, theirs: Bytes, salt: Bytes, key: Bytes, prefix: Bytes) {
    && (exists i :: 0 <= i < |c.dh(mine, theirs)| && c.dh(mine, theirs)[i] != 0 as char)
    && c.hkdf(salt, c.dh(mine, theirs)) == key + prefix && |key| == 32 && |prefix| == 8
  }

  lemma AgreedMeans(c: Crypto, mine: Bytes, theirs: Bytes, salt: Bytes, key: Bytes, prefix: Bytes)
    ensures Derive(c, mine, theirs, salt) == Some(Secrets(key, prefix)) <==> Agreed(c, mine, theirs, salt, key, prefix)
  {
    var okm := c.hkdf(salt, c.dh(mine, theirs));
    if |okm| == 40 { assert okm == okm[..32] + okm[32..]; }
    if Agreed(c, mine, theirs, salt, key, prefix) { assert okm[..32] == key && okm[32..] == prefix; }
  }

  /** `out` is what the envelope holds for this reader. */
  ghost predicate Opens(c: Crypto, b: Codec, e: Envelope, sk: Bytes, order: seq<Chunk>, pieces: seq<Bytes>, key: Bytes, prefix: Bytes) {
    && Arranged(e, order) && Agreed(c, sk, e.verifyingKey, e.salt, key, prefix)
    && AllRead(c, b, key, prefix, order, pieces) && |Concat(pieces)| == e.metadata.payloadSize
  }

  /**
   `unseal` in full: an envelope that verifies gives `out` exactly when its chunks, in the order of their
   numbers, open one after the other under the agreed secrets and `out` is their concatenation, of the
   promised size.
   */
  lemma UnsealMeans(c: Crypto, b: Codec, e: Envelope, sk: Bytes, out: Bytes)
    requires Verified(c, b, e)
    ensures Unsealed(c, b, e, sk) == Some(out) <==>
              exists order, pieces, key, prefix :: Opens(c, b, e, sk, order, pieces, key, prefix) && out == Concat(pieces)
  {
    hide Verified, Derive, OpenedTo, Sort, Arranged, AllRead, Agreed, InSequence, Concat;
    var sorted, derived := Sort(ChunkKey, e.chunks), Derive(c, sk, e.verifyingKey, e.salt);
    assert InSequence(e) by { VerifiedSequence(c, b, e); }
    ArrangedMeans(e, sorted);
    SameLength(sorted, e.chunks);
    if Unsealed(c, b, e, sk) == Some(out) {
      var s := derived.value;
      AgreedMeans(c, sk, e.verifyingKey, e.salt, s.key, s.prefix);
      var pieces := OpenedGives(c, b, s, sorted, |sorted|);
      assert AllRead(c, b, s.key, s.prefix, sorted, pieces) by { AllReadIs(c, b, s, sorted, pieces); }
      assert Opens(c, b, e, sk, sorted, pieces, s.key, s.prefix);
    }
    if order, pieces, key, prefix :| Opens(c, b, e, sk, order, pieces, key, prefix) && out == Concat(pieces) {
      ArrangedMeans(e, order);
      AgreedMeans(c, sk, e.verifyingKey, e.salt, key, prefix);
      OpenedTakes(c, b, Secrets(key, prefix), sorted, pieces, |sorted|);
      assert pieces[..|sorted|] == pieces by { AllReadLength(c, b, key, prefix, sorted, pieces); }
    }
  }

  lemma VerifiedSequence(c: Crypto, b: Codec, e: Envelope)
    requires Verified(c, b, e)
    ensures InSequence(e)
  {
    hide InSequence;
  }

  lemma AllReadIs(c: Crypto, b: Codec, s: Secrets, order: seq<Chunk>, pieces: seq<Bytes>)
    requires |pieces| == |order|
    requires forall i :: 0 <= i < |order| ==> ChunkReads(c, b, s.key, s.prefix, order[i], i == |order| - 1, pieces[i])
    ensures AllRead(c, b, s.key, s.prefix, order, pieces)
  {
    hide ChunkReads;
  }

  lemma AllReadLength(c: Crypto, b: Codec, key: Bytes, prefix: Bytes, order: seq<Chunk>, pieces: seq<Bytes>)
    requires AllRead(c, b, key, prefix, order, pieces)
    ensures |pieces| == |order|
  {
    hide ChunkReads;
  }

  // ── What sealing writes ────────────────────────────────────────────────────

  /** Everything an envelope says outside its chunks. */
  lemma EnvelopeSays(c: Crypto, b: Codec, payload: Bytes, sk: Bytes, beneficiary: Bytes, salt: Bytes, now: nat, e: Envelope)
    requires Sealed(c, b, payload, sk, beneficiary, salt, now, e)
    ensures e.version == 2 && e.salt == salt && e.verifyingKey == c.publicOf(sk) && e.beneficiary == beneficiary
    ensures e.metadata.createdAt == now && e.metadata.payloadSize == |payload| && e.metadata.chunkCount == |Split(payload, 65536)|
    ensures e.metadata.aead == 1 && e.metadata.sig == 1 && e.metadata.hash == 1
  {
    hide Derive, IsChunking, Split;
    SealedCounts(c, b, payload, sk, beneficiary, salt, now, e);
    PieceCount(payload);
  }

  /** Chunk `i` of an envelope: its number, its nonce, its signed manifest, and a ciphertext that opens to piece `i`. */
  lemma ChunkSays(c: Crypto, b: Codec, payload: Bytes, sk: Bytes, beneficiary: Bytes, salt: Bytes, now: nat, e: Envelope, i: nat,
                  key: Bytes, prefix: Bytes)
    requires SignatureLaws(c) && AeadLaws(c) && CodecLaws(b) && Agreed(c, sk, beneficiary, salt, key, prefix)
    requires Sealed(c, b, payload, sk, beneficiary, salt, now, e) && i < |e.chunks|
    ensures |e.chunks| == |Split(payload, 65536)|
    ensures var piece, last, chunk := Split(payload, 65536)[i], i == |e.chunks| - 1, e.chunks[i];
            && chunk.sequence == i && chunk.nonce == NonceBytes(prefix, i, last)
            && ChunkReads(c, b, key, prefix, chunk, last, piece) && SignedUnder(c, b, c.publicOf(sk), chunk)
            && var s := b.getSigned(chunk.manifest).value;
               && s.pubkey == c.publicOf(sk)
               && b.getManifest(s.manifest) == Some(ChunkManifest(i, |piece|, now, "application/octet-stream", NoSalt(), 0))
  {
    hide Derive, ChunkFor, SignatureLaws, AeadLaws, CodecLaws, Agreed, NonceFor, NonceBytes, DecryptChunk, ChunkReads, SignedUnder,
         Numbered, DivCeil, Split;
    AgreedMeans(c, sk, beneficiary, salt, key, prefix);
    var s, pieces := Secrets(key, prefix), Split(payload, CHUNK_SIZE);
    ChunkIndexFits(c, b, sk, s, pieces, now, e.chunks, i);
    SplitPieces(payload, CHUNK_SIZE);
    OneChunkSays(c, b, sk, s, i, pieces[i], i == |pieces| - 1, now);
  }

  lemma OneChunkSays(c: Crypto, b: Codec, sk: Bytes, s: Secrets, i: nat, data: Bytes, last: bool, now: nat)
    requires SignatureLaws(c) && AeadLaws(c) && CodecLaws(b) && i <= MAX_CHUNK_INDEX && |data| <= CHUNK_SIZE
    ensures var chunk := ChunkFor(c, b, sk, s, i, data, last, now).value;
            && chunk.sequence == i && chunk.nonce == NonceBytes(s.prefix, i, last)
            && ChunkReads(c, b, s.key, s.prefix, chunk, last, data) && SignedUnder(c, b, c.publicOf(sk), chunk)
            && var signed := b.getSigned(chunk.manifest).value;
               && signed.pubkey == c.publicOf(sk)
               && b.getManifest(signed.manifest) == Some(ChunkManifest(i, |data|, now, "application/octet-stream", NoSalt(), 0))
  {
    hide NonceFor, NonceBytes, AadFor, ChunkReads, DecryptChunk;
    ChunkOpens(c, b, sk, s, i, data, last, now);
    ChunkReadsMeans(c, b, s, ChunkFor(c, b, sk, s, i, data, last, now).value, last, data);
    NonceIs(s.prefix, i, last);
    var bytes := b.putManifest(ManifestFor(i, data, now));
    var signed := SignedManifest(bytes, c.sign(sk, c.hash(bytes)), c.publicOf(sk));
    assert b.getSigned(b.putSigned(signed)) == Some(signed) && b.getManifest(bytes) == Some(ManifestFor(i, data, now));
  }
}
