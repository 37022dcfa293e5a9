/**
 What `wrap` puts on disk, which archives validate and what `unwrap` gives to whom, written out in terms
 of the call, the files and the keys alone.
 */
module Contents {
  import opened Text
  import opened Json
  import opened Primitives
  import opened Records
  import opened Chain
  import opened Streams
  import opened Sorting
  import opened Archive
  import opened Wrap
  import opened WrapProofs

  // ── The chunk files of a wrap ──────────────────────────────────────────────

  /** What the chunks of an archive are bound to. */
  function BoundTo(c: Crypto, publicKey: Bytes, profile: Bytes, startedAt: Bytes): Bytes {
    c.hash("sealedge/aad/v1" + publicKey + profile + startedAt)
  }

  /**
   The file of chunk `i`: piece `i` of the payload, or its own nonce and then a ciphertext that opens to the
   piece under the content key and that nonce.
   */
  lemma ChunkOnDisk(t: Tools, a: WrapArgs, link: Option<Link>, payload: Bytes, existing: Dir, m: Manifest, d: Dir, i: nat)
    requires ToolLaws(t) && Wrapped(t, a, link, payload, existing) == Some((m, d)) && a.chunkSize > 0
    requires i < |Split(payload, a.chunkSize)|
    ensures ChunkName(i) in d.chunks
    ensures var file, piece := d.chunks[ChunkName(i)], Split(payload, a.chunkSize)[i];
            match a.cek
            case None => file == piece
            case Some(key) =>
              && |file| == 24 + |piece| + 16 && file[..24] == a.nonce(i)
              && t.crypto.open(key, a.nonce(i), BoundTo(t.crypto, t.crypto.publicOf(a.secret), a.profile, a.startedAt), file[24..])
                 == Some(piece)
  {
    hide Wrapped, FinalManifest, ReadManifest, Written, Split, ReadBack, ChunkName, ManifestBytes;
    WrappedShape(t, a, link, payload, existing, m, d);
    var stored := StoredOf(t, a, payload);
    WrittenAt(existing.chunks, stored, i);
    SealedAlone(t.crypto, a, i, Split(payload, a.chunkSize)[i]);
  }

  lemma SealedAlone(c: Crypto, a: WrapArgs, i: nat, piece: Bytes)
    requires AeadLaws(c)
    ensures var file := StoredChunk(c, a, i, piece);
            match a.cek
            case None => file == piece
            case Some(key) =>
              && |file| == 24 + |piece| + 16 && file[..24] == a.nonce(i)
              && c.open(key, a.nonce(i), BoundTo(c, c.publicOf(a.secret), a.profile, a.startedAt), file[24..]) == Some(piece)
  {
    if a.cek.Some? {
      var file := StoredChunk(c, a, i, piece);
      assert file[..24] == a.nonce(i);
    }
  }

  /** Distinct draws put distinct nonces on disk. */
  lemma NoncesOnDisk(t: Tools, a: WrapArgs, link: Option<Link>, payload: Bytes, existing: Dir, m: Manifest, d: Dir, i: nat, j: nat)
    requires ToolLaws(t) && Wrapped(t, a, link, payload, existing) == Some((m, d)) && a.chunkSize > 0 && a.cek.Some?
    requires i < |Split(payload, a.chunkSize)| && j < |Split(payload, a.chunkSize)| && a.nonce(i) != a.nonce(j)
    ensures ChunkName(i) in d.chunks && ChunkName(j) in d.chunks
    ensures |d.chunks[ChunkName(i)]| >= 24 && |d.chunks[ChunkName(j)]| >= 24
    ensures d.chunks[ChunkName(i)][..24] != d.chunks[ChunkName(j)][..24]
  {
    hide Wrapped, Split, ChunkName;
    ChunkOnDisk(t, a, link, payload, existing, m, d, i);
    ChunkOnDisk(t, a, link, payload, existing, m, d, j);
  }

  // ── The manifest of a wrap ─────────────────────────────────────────────────

  /** The digests of the first `n` chunk files, folded from the genesis seed. */
  function FileFold(c: Crypto, chunks: map<Bytes, Bytes>, n: nat): Bytes {
    if n == 0 then c.hash("sealedge:genesis")
    else c.hash(FileFold(c, chunks, n - 1) + if ChunkName(n - 1) in chunks then c.hash(chunks[ChunkName(n - 1)]) else "")
  }

  lemma {:induction false} FoldIs(c: Crypto, chunks: map<Bytes, Bytes>, n: nat, k: nat)
    requires k <= n
    ensures FileFold(c, chunks, k) == Continuity(c, FileHashes(c, chunks, n), k)
  {
    hide ChunkName;
    if k > 0 { FoldIs(c, chunks, n, k - 1); }
  }

  /** Everything the finished manifest says outside its encryption block. */
  lemma ManifestSays(t: Tools, a: WrapArgs, link: Option<Link>, payload: Bytes, existing: Dir, m: Manifest, d: Dir)
    requires ToolLaws(t) && Wrapped(t, a, link, payload, existing) == Some((m, d))
    ensures m.version == "0.2.0" && m.profile == a.profile && m.claims == ["location:unknown"]
    ensures m.device == DeviceInfo(a.deviceId, "TrustEdgeRefCam", "1.0.0", t.crypto.publicOf(a.secret),
              Some(t.crypto.agreementOf(a.agreementSecret)),
              if link.Some? && link.value.keyEpoch > 0 then Some(link.value.keyEpoch) else None)
    ensures m.metadata.startedAt == a.startedAt && m.metadata.endedAt == a.endedAt && m.metadata.fields == a.fields
    ensures m.chunkSize == a.chunkSize && m.chunkDuration == a.duration
    ensures link.None? ==> m.sequence == None && m.prev == None
    ensures link.Some? ==> m.sequence == Some(link.value.sequence) && m.prev == link.value.prev
    ensures m.signature.Some? && m.signature == d.sig
    ensures t.crypto.verifies(t.crypto.publicOf(a.secret), ManifestBytes(m), m.signature.value)
  {
    hide ManifestBytes, SegmentsFor, Written, Pieces;
    var stored := StoredOf(t, a, payload);
    FinalManifestShape(t, a, link, stored, m);
    var pre := Unsigned(t, a, link, SegmentsFor(t.crypto, a, stored));
    hide FinalManifest;
    assert m.version == pre.version && m.profile == pre.profile && m.claims == pre.claims && m.device == pre.device;
    assert m.metadata == pre.metadata && m.chunkSize == pre.chunkSize && m.chunkDuration == pre.chunkDuration;
    assert m.sequence == pre.sequence && m.prev == pre.prev;
    assert t.crypto.verifies(t.crypto.publicOf(a.secret), ManifestBytes(m), t.crypto.sign(a.secret, ManifestBytes(m)));
  }

  /** Segment `i` names, times and hashes the file of chunk `i`. */
  lemma SegmentSays(t: Tools, a: WrapArgs, link: Option<Link>, payload: Bytes, existing: Dir, m: Manifest, d: Dir, i: nat)
    requires ToolLaws(t) && Wrapped(t, a, link, payload, existing) == Some((m, d)) && i < |m.segments|
    ensures ChunkName(i) in d.chunks && |m.segments| == ChunkCount(a, payload)
    ensures m.segments[i] == Segment(ChunkName(i), Hex(t.crypto.hash(d.chunks[ChunkName(i)])), a.startTime(i), a.duration,
                                     Hex(FileFold(t.crypto, d.chunks, i + 1)))
  {
    hide Wrapped, FinalManifest, ReadManifest, Written, Pieces, ReadBack, ChunkName, ManifestBytes, Continuity, Hex, Hashes, FileHashes;
    WrappedShape(t, a, link, payload, existing, m, d);
    var stored := StoredOf(t, a, payload);
    WrittenAt(existing.chunks, stored, i);
    WrittenHashes(t.crypto, existing.chunks, stored);
    FoldIs(t.crypto, d.chunks, |stored|, i + 1);
    assert m.segments[i] == SegmentFor(t.crypto, a, stored, i);
  }

  /** The encryption block: the device's own key and each listed one, once, each with the content key sealed to it. */
  lemma RecipientsSay(t: Tools, a: WrapArgs, link: Option<Link>, payload: Bytes, existing: Dir, m: Manifest, d: Dir)
    requires ToolLaws(t) && Wrapped(t, a, link, payload, existing) == Some((m, d))
    ensures m.encryption.Some? <==> a.cek.Some?
    ensures a.cek.Some? ==>
              var c, e, rs := t.crypto, m.encryption.value, m.encryption.value.recipients;
              && e.contentAead == "XChaCha20Poly1305" && e.kem == "DHKEM(X25519,HKDF-SHA256)" && e.kdf == "HKDF-SHA256"
              && e.aead == "ChaCha20Poly1305"
              && |rs| > 0 && rs[0].pub == c.agreementOf(a.agreementSecret)
              && (forall k :: 0 <= k < |rs| ==> k == 0 || rs[k].pub in a.recipients)
              && (forall pub :: pub in a.recipients ==> exists k :: 0 <= k < |rs| && rs[k].pub == pub)
              && (forall k, j :: 0 <= k < j < |rs| ==> rs[k].pub != rs[j].pub)
              && forall k :: 0 <= k < |rs| ==>
                   && Some(rs[k].id) == t.recipientId(rs[k].pub)
                   && (rs[k].enc, rs[k].wrappedCek)
                      == c.hpkeSeal(a.ephemeral(k), rs[k].pub, "sealedge/cek-wrap/v1" + m.device.publicKey + m.version,
                                    c.hash(ManifestBytes(m.(encryption := None))), a.cek.value)
  {
    hide Wrapped, FinalManifest, ReadManifest, Written, Pieces, ReadBack, ManifestBytes, SealedForAll, RecipientKeys;
    WrappedShape(t, a, link, payload, existing, m, d);
    var stored := StoredOf(t, a, payload);
    FinalManifestShape(t, a, link, stored, m);
    if a.cek.Some? {
      EncryptionBlock(t, a, link, stored, m);
      EncryptionNames(t, a, link, stored, m);
      SealedEntries(t, a, a.cek.value, CekWrapInfo(m.device.publicKey, m.version), t.crypto.hash(ManifestBytes(m.(encryption := None))),
                    ReaderKeys(t, a), m.encryption.value.recipients);
      ReadersSay(t, a);
    }
  }

  lemma EncryptionNames(t: Tools, a: WrapArgs, link: Option<Link>, stored: seq<Bytes>, m: Manifest)
    requires FinalManifest(t, a, link, stored) == Some(m) && a.cek.Some?
    ensures m.encryption.Some?
    ensures m.encryption.value == Encryption("XChaCha20Poly1305", "DHKEM(X25519,HKDF-SHA256)", "HKDF-SHA256", "ChaCha20Poly1305",
                                             m.encryption.value.recipients)
  {
    hide SealedForAll, RecipientKeys, SegmentsFor, ManifestBytes;
  }

  lemma SealedEntries(t: Tools, a: WrapArgs, key: Key32, info: Bytes, digest: Bytes, pubs: seq<Bytes>, rs: seq<Recipient>)
    requires SealedForAll(t, a, key, info, digest, pubs) == Some(rs)
    ensures |rs| == |pubs|
    ensures forall k :: 0 <= k < |rs| ==>
              && rs[k].pub == pubs[k] && Some(rs[k].id) == t.recipientId(rs[k].pub)
              && (rs[k].enc, rs[k].wrappedCek) == t.crypto.hpkeSeal(a.ephemeral(k), rs[k].pub, info, digest, key)
  {
    hide SealedForAll;
    forall k | 0 <= k < |rs|
      ensures && rs[k].pub == pubs[k] && Some(rs[k].id) == t.recipientId(rs[k].pub)
              && (rs[k].enc, rs[k].wrappedCek) == t.crypto.hpkeSeal(a.ephemeral(k), rs[k].pub, info, digest, key)
    {
      assert SealedFor(t, a, key, info, digest, pubs[k], k) == Some(rs[k]);
    }
  }

  lemma ReadersSay(t: Tools, a: WrapArgs)
    ensures var keys := ReaderKeys(t, a);
            && |keys| > 0 && keys[0] == t.crypto.agreementOf(a.agreementSecret)
            && (forall k :: 0 <= k < |keys| ==> k == 0 || keys[k] in a.recipients)
            && (forall pub :: pub in a.recipients ==> exists k :: 0 <= k < |keys| && keys[k] == pub)
            && (forall k, j :: 0 <= k < j < |keys| ==> keys[k] != keys[j])
  {
    hide RecipientKeys;
    var own := [t.crypto.agreementOf(a.agreementSecret)];
    var keys := RecipientKeys(own, a.recipients);
    assert keys[0] == own[0] && Unrepeated(own) && Unrepeated(keys);
    forall k | 0 < k < |keys| ensures keys[k] in a.recipients { assert keys[k] in keys && keys[k] != keys[0]; }
  }

  /** One number of a manifest that JSON cannot hold, wherever it stands, and nobody can read the manifest. */
  lemma UnreadableNumber(t: Tools, m: Manifest, n: NumText)
    requires ToolLaws(t) && n in ["inf", "-inf", "NaN"]
    requires m.chunkDuration == n || exists i :: 0 <= i < |m.segments| && m.segments[i].duration == n
    ensures t.decode(t.encode(m)) == None
  {
    assert NotFinite(n);
  }

  // ── When a wrap succeeds ───────────────────────────────────────────────────

  lemma {:induction false} SealedExactly(t: Tools, a: WrapArgs, key: Key32, info: Bytes, digest: Bytes, pubs: seq<Bytes>)
    ensures SealedForAll(t, a, key, info, digest, pubs).Some? <==> forall k :: 0 <= k < |pubs| ==> t.recipientId(pubs[k]).Some?
    decreases |pubs|
  {
    if pubs != [] {
      var last := |pubs| - 1;
      SealedExactly(t, a, key, info, digest, pubs[..last]);
      assert forall k :: 0 <= k < last ==> pubs[..last][k] == pubs[k];
    }
  }

  /**
   `wrap` succeeds exactly for a payload and a chunk size it takes, recipients only with encryption and
   each with a well-formed key, and a manifest that readers will not find too large.
   */
  lemma WrapSucceeds(t: Tools, a: WrapArgs, link: Option<Link>, payload: Bytes, existing: Dir)
    requires ToolLaws(t)
    ensures Wrapped(t, a, link, payload, existing).Some? <==>
              && payload != "" && a.chunkSize <= 256 * 1024 * 1024
              && (a.cek.None? ==> a.recipients == [])
              && (a.cek.Some? ==> forall pub :: pub in a.recipients ==> t.recipientId(pub).Some?)
              && FinalManifest(t, a, link, StoredOf(t, a, payload)).Some?
              && |t.encode(FinalManifest(t, a, link, StoredOf(t, a, payload)).value)| <= 8 * 1024 * 1024
    ensures FinalManifest(t, a, link, StoredOf(t, a, payload)).Some? <==>
              if a.cek.None? then a.recipients == [] else forall pub :: pub in a.recipients ==> t.recipientId(pub).Some?
  {
    hide ManifestBytes, SegmentFor, Written, Pieces, SealedForAll, RecipientKeys;
    var stored := StoredOf(t, a, payload);
    if a.cek.Some? {
      var pre := Unsigned(t, a, link, SegmentsFor(t.crypto, a, stored));
      SealedExactly(t, a, a.cek.value, CekWrapInfo(pre.device.publicKey, pre.version), t.crypto.hash(ManifestBytes(pre)), ReaderKeys(t, a));
      ReadersSay(t, a);
      assert t.recipientId(t.crypto.agreementOf(a.agreementSecret)).Some?;
    }
    var f := FinalManifest(t, a, link, stored);
    if f.Some? {
      FinalManifestShape(t, a, link, stored, f.value);
      assert |f.value.segments| == |stored| && |t.encode(f.value)| >= |f.value.segments|;
    }
  }

  // ── Which archives validate ────────────────────────────────────────────────

  /** The two metadata files are there, within the readers' limits, and hold `m`. */
  predicate OnFile(t: Tools, d: Dir, m: Manifest) {
    && d.manifest.Some? && |d.manifest.value| <= 8 * 1024 * 1024 && d.sig.Some? && |d.sig.value| <= 4096
    && t.decode(d.manifest.value) == Some(m) && (m.signature.Some? ==> m.signature == d.sig)
  }

  /** A standalone archive, the first of a chronicle, or a later one with a well-formed predecessor. */
  predicate PlaceOk(m: Manifest) {
    && (m.sequence == None || m.sequence == Some(0) ==> m.prev == None)
    && (m.sequence.Some? && m.sequence.value > 0 ==>
          && m.prev.Some? && |m.prev.value| == 67 && m.prev.value[..3] == "b3:"
          && forall i :: 3 <= i < 67 ==> '0' <= m.prev.value[i] <= '9' || 'a' <= m.prev.value[i] <= 'f' || 'A' <= m.prev.value[i] <= 'F')
  }

  predicate WordsOk(t: Tools, m: Manifest) {
    && m.version != "" && m.profile in ["generic", "cam.video", "sensor", "audio", "log"]
    && m.device.id != "" && m.device.publicKey != "" && m.device.keyEpoch != Some(0)
    && m.metadata.startedAt != "" && m.metadata.endedAt != "" && t.profileOk(m.profile, m.metadata)
    && (m.encryption.Some? ==> |m.encryption.value.recipients| > 0)
  }

  /** The `.bin` files are those of the segments, one each, and the segments say what is in them. */
  predicate FilesOk(c: Crypto, m: Manifest, chunks: map<Bytes, Bytes>) {
    && |m.segments| > 0
    && (forall name <- chunks :: EndsWithBin(name) ==> exists i :: 0 <= i < |m.segments| && name == ChunkName(i))
    && forall i :: 0 <= i < |m.segments| ==>
         var s := m.segments[i];
         && s.chunkFile == ChunkName(i) && ChunkName(i) in chunks && |chunks[ChunkName(i)]| <= 256 * 1024 * 1024 + 40
         && s.blake3Hash == Hex(c.hash(chunks[ChunkName(i)]))
         && HexDecode(s.continuityHash) == Some(FileFold(c, chunks, i + 1))
  }

  lemma PlaceMeans(m: Manifest)
    ensures ChronicleFieldsValid(m.sequence, m.prev) <==> PlaceOk(m)
  {
  }

  lemma FoldLength(c: Crypto, chunks: map<Bytes, Bytes>, n: nat)
    requires HashLaws(c)
    ensures |FileFold(c, chunks, n)| == DIGEST_LEN
  {
  }

  lemma FilesMean(c: Crypto, m: Manifest, chunks: map<Bytes, Bytes>)
    requires HashLaws(c)
    ensures Backed(c, m, chunks) && NoStrays(m, chunks) && m.segments != [] <==> FilesOk(c, m, chunks)
  {
    hide HashLaws, ChunkName, Continuity, Hex, HexDecode, EndsWithBin, FileFold, FileHashes;
    var n := |m.segments|;
    forall k | 0 <= k <= n
      ensures FileFold(c, chunks, k) == Continuity(c, FileHashes(c, chunks, n), k) && |FileFold(c, chunks, k)| == DIGEST_LEN
    {
      FoldIs(c, chunks, n, k);
      FoldLength(c, chunks, k);
    }
    if Backed(c, m, chunks) && NoStrays(m, chunks) {
      forall name | name in chunks && EndsWithBin(name) ensures exists i :: 0 <= i < n && name == ChunkName(i) {
        var i :| 0 <= i < n && m.segments[i].chunkFile == name;
        assert SegmentOk(c, m.segments[i], chunks, i);
      }
    }
    if FilesOk(c, m, chunks) {
      forall name | name in chunks && EndsWithBin(name) ensures exists i :: 0 <= i < n && m.segments[i].chunkFile == name {
        var i :| 0 <= i < n && name == ChunkName(i);
        assert m.segments[i].chunkFile == name;
      }
    }
  }

  lemma SegmentWords(c: Crypto, m: Manifest, chunks: map<Bytes, Bytes>, i: nat)
    requires HashLaws(c) && FilesOk(c, m, chunks) && i < |m.segments|
    ensures m.segments[i].chunkFile != "" && m.segments[i].blake3Hash != "" && m.segments[i].continuityHash != ""
  {
    hide FileFold, Hex, ChunkName;
    ChunkNameDigits(i);
    HexRoundTrip(c.hash(chunks[ChunkName(i)]));
    FoldLength(c, chunks, i + 1);
  }

  /** Validation accepts a directory exactly when its manifest can be read, says what it must, and fits the files. */
  lemma ValidExactly(t: Tools, d: Dir)
    requires HashLaws(t.crypto)
    ensures ArchiveOk(t, d) <==> exists m :: OnFile(t, d, m) && WordsOk(t, m) && PlaceOk(m) && FilesOk(t.crypto, m, d.chunks)
  {
    forall m ensures ReadManifest(t, d) == Some(m) <==> OnFile(t, d, m) { }
    hide ReadManifest, OnFile;
    forall m ensures ContentOk(t, m, d.chunks) <==> WordsOk(t, m) && PlaceOk(m) && FilesOk(t.crypto, m, d.chunks) {
      ContentMeans(t, m, d.chunks);
    }
    if ArchiveOk(t, d) { assert OnFile(t, d, ReadManifest(t, d).value); }
  }

  lemma ContentMeans(t: Tools, m: Manifest, chunks: map<Bytes, Bytes>)
    requires HashLaws(t.crypto)
    ensures ContentOk(t, m, chunks) <==> WordsOk(t, m) && PlaceOk(m) && FilesOk(t.crypto, m, chunks)
  {
    hide Backed, NoStrays, FilesOk, ChronicleFieldsValid, PlaceOk, HashLaws;
    PlaceMeans(m);
    FilesMean(t.crypto, m, chunks);
    if FilesOk(t.crypto, m, chunks) {
      forall i | 0 <= i < |m.segments|
        ensures m.segments[i].chunkFile != "" && m.segments[i].blake3Hash != "" && m.segments[i].continuityHash != ""
      {
        SegmentWords(t.crypto, m, chunks, i);
      }
    }
  }

  // ── What unwrap gives to whom ──────────────────────────────────────────────

  /** The file of chunk `i` is there and within the readers' limit. */
  predicate ChunkThere(chunks: map<Bytes, Bytes>, i: nat) {
    ChunkName(i) in chunks && |chunks[ChunkName(i)]| <= 256 * 1024 * 1024 + 40
  }

  /** Entry `r` is the reader's, and opens to the content key `key`. */
  predicate EntryOpens(c: Crypto, m: Manifest, secret: Bytes, r: nat, key: Bytes) {
    && m.encryption.Some? && r < |m.encryption.value.recipients|
    && var rs := m.encryption.value.recipients;
       && rs[r].pub == c.agreementOf(secret) && (forall k :: 0 <= k < r ==> rs[k].pub != c.agreementOf(secret))
       && |key| == 32
       && c.hpkeOpen(secret, rs[r].enc, "sealedge/cek-wrap/v1" + m.device.publicKey + m.version,
                     c.hash(ManifestBytes(m.(encryption := None))), rs[r].wrappedCek) == Some(key)
  }

  predicate PlainPieces(m: Manifest, chunks: map<Bytes, Bytes>, pieces: seq<Bytes>) {
    |pieces| == |m.segments| && forall i :: 0 <= i < |pieces| ==> ChunkThere(chunks, i) && chunks[ChunkName(i)] == pieces[i]
  }

  predicate OpenedPieces(c: Crypto, m: Manifest, chunks: map<Bytes, Bytes>, key: Bytes, pieces: seq<Bytes>) {
    |pieces| == |m.segments| && forall i :: 0 <= i < |pieces| ==>
      && ChunkThere(chunks, i) && |chunks[ChunkName(i)]| >= 24
      && c.open(key, chunks[ChunkName(i)][..24], BoundTo(c, m.device.publicKey, m.profile, m.metadata.startedAt), chunks[ChunkName(i)][24..])
         == Some(pieces[i])
  }

  /** The archive is of the supported version, signed, and by the expected signer if one is named. */
  predicate Vouched(c: Crypto, m: Manifest, signer: Option<Bytes>) {
    && m.version == "0.2.0" && (signer.Some? ==> m.device.publicKey == signer.value)
    && m.signature.Some? && c.verifies(m.device.publicKey, ManifestBytes(m), m.signature.value)
  }

  /** The reader gets `pieces` from the files of `m`. */
  ghost predicate Reads(c: Crypto, m: Manifest, secret: Bytes, chunks: map<Bytes, Bytes>, pieces: seq<Bytes>) {
    if m.encryption.None? then PlainPieces(m, chunks, pieces)
    else exists r, key :: EntryOpens(c, m, secret, r, key) && OpenedPieces(c, m, chunks, key, pieces)
  }

  ghost predicate RecoversAs(c: Crypto, access: Content, chunks: map<Bytes, Bytes>, pieces: seq<Bytes>) {
    forall i :: 0 <= i < |pieces| ==> ChunkThere(chunks, i) && RecoverChunk(c, access, chunks[ChunkName(i)]) == Some(pieces[i])
  }

  lemma {:induction false} RecoverGives(c: Crypto, access: Content, chunks: map<Bytes, Bytes>, n: nat) returns (pieces: seq<Bytes>)
    requires Recover(c, access, chunks, n).Some?
    ensures |pieces| == n && RecoversAs(c, access, chunks, pieces) && Recover(c, access, chunks, n).value == Concat(pieces)
  {
    hide RecoverChunk, ChunkName, Concat;
    if n == 0 {
      pieces := [];
      assert Concat(pieces) == "" by { NoPieces(); }
    } else {
      var before := RecoverGives(c, access, chunks, n - 1);
      var p := RecoverChunk(c, access, chunks[ChunkName(n - 1)]).value;
      ConcatAppend(before, p);
      pieces := before + [p];
    }
  }

  lemma NoPieces()
    ensures Concat([]) == ""
  {
  }

  lemma {:induction false} RecoverTakes(c: Crypto, access: Content, chunks: map<Bytes, Bytes>, pieces: seq<Bytes>)
    requires RecoversAs(c, access, chunks, pieces)
    ensures Recover(c, access, chunks, |pieces|) == Some(Concat(pieces))
  {
    hide RecoverChunk, ChunkName, Concat;
    if pieces == [] {
      NoPieces();
    } else {
      var k := |pieces| - 1;
      RecoverTakes(c, access, chunks, pieces[..k]);
      ConcatAppend(pieces[..k], pieces[k]);
      assert pieces == pieces[..k] + [pieces[k]];
    }
  }

  lemma {:induction false} FirstEntry(rs: seq<Recipient>, pub: Bytes, r: nat)
    requires r < |rs| && rs[r].pub == pub && forall k :: 0 <= k < r ==> rs[k].pub != pub
    ensures FindRecipient(rs, pub) == Some(rs[r])
  {
    if r > 0 { FirstEntry(rs[1..], pub, r - 1); }
  }

  lemma {:induction false} EntryFound(rs: seq<Recipient>, pub: Bytes) returns (r: nat)
    requires FindRecipient(rs, pub).Some?
    ensures r < |rs| && rs[r].pub == pub && (forall k :: 0 <= k < r ==> rs[k].pub != pub) && FindRecipient(rs, pub) == Some(rs[r])
  {
    if rs[0].pub == pub { r := 0; } else {
      var n := EntryFound(rs[1..], pub);
      r := n + 1;
      assert forall k :: 0 < k < r ==> rs[k] == rs[1..][k - 1];
    }
  }

  /** How the content key is got at, from the entries. */
  lemma AccessMeans(t: Tools, m: Manifest, secret: Bytes, r: nat, key: Bytes)
    requires EntryOpens(t.crypto, m, secret, r, key)
    ensures ContentAccess(t, m, secret) == Some(Keyed(key, BoundTo(t.crypto, m.device.publicKey, m.profile, m.metadata.startedAt)))
  {
    hide ManifestBytes, FindRecipient;
    FirstEntry(m.encryption.value.recipients, t.crypto.agreementOf(secret), r);
  }

  lemma AccessGives(t: Tools, m: Manifest, secret: Bytes) returns (r: nat, key: Bytes)
    requires m.encryption.Some? && ContentAccess(t, m, secret).Some?
    ensures EntryOpens(t.crypto, m, secret, r, key)
  {
    hide ManifestBytes, FindRecipient;
    r := EntryFound(m.encryption.value.recipients, t.crypto.agreementOf(secret));
    key := ContentAccess(t, m, secret).value.cek;
  }

  lemma KeyedPieces(c: Crypto, m: Manifest, chunks: map<Bytes, Bytes>, key: Bytes, pieces: seq<Bytes>)
    ensures OpenedPieces(c, m, chunks, key, pieces) <==>
              |pieces| == |m.segments| && RecoversAs(c, Keyed(key, BoundTo(c, m.device.publicKey, m.profile, m.metadata.startedAt)), chunks, pieces)
  {
    hide ChunkName, BoundTo;
  }

  lemma UnkeyedPieces(c: Crypto, m: Manifest, chunks: map<Bytes, Bytes>, pieces: seq<Bytes>)
    ensures PlainPieces(m, chunks, pieces) <==> |pieces| == |m.segments| && RecoversAs(c, Plain, chunks, pieces)
  {
    hide ChunkName;
  }

  lemma ReadsGives(t: Tools, d: Dir, m: Manifest, secret: Bytes) returns (pieces: seq<Bytes>)
    requires ReadManifest(t, d) == Some(m) && Recovered(t, d, secret).Some?
    ensures Reads(t.crypto, m, secret, d.chunks, pieces) && Recovered(t, d, secret).value == Concat(pieces)
  {
    hide ReadManifest, ContentAccess, Recover, EntryOpens, OpenedPieces, PlainPieces, RecoversAs, Concat;
    var access := ContentAccess(t, m, secret).value;
    pieces := RecoverGives(t.crypto, access, d.chunks, |m.segments|);
    if m.encryption.None? {
      UnkeyedPieces(t.crypto, m, d.chunks, pieces);
      PlainAccess(t, m, secret);
    } else {
      var r, key := AccessGives(t, m, secret);
      AccessMeans(t, m, secret, r, key);
      KeyedPieces(t.crypto, m, d.chunks, key, pieces);
    }
  }

  lemma PlainAccess(t: Tools, m: Manifest, secret: Bytes)
    requires m.encryption.None?
    ensures ContentAccess(t, m, secret) == Some(Plain)
  {
  }

  lemma ReadsTakes(t: Tools, d: Dir, m: Manifest, secret: Bytes, pieces: seq<Bytes>)
    requires ReadManifest(t, d) == Some(m) && Reads(t.crypto, m, secret, d.chunks, pieces)
    ensures Recovered(t, d, secret) == Some(Concat(pieces))
  {
    hide ReadManifest, ContentAccess, Recover, EntryOpens, OpenedPieces, PlainPieces, RecoversAs, Concat;
    if m.encryption.None? {
      UnkeyedPieces(t.crypto, m, d.chunks, pieces);
      PlainAccess(t, m, secret);
      RecoverTakes(t.crypto, Plain, d.chunks, pieces);
    } else {
      var r, key :| EntryOpens(t.crypto, m, secret, r, key) && OpenedPieces(t.crypto, m, d.chunks, key, pieces);
      AccessMeans(t, m, secret, r, key);
      KeyedPieces(t.crypto, m, d.chunks, key, pieces);
      RecoverTakes(t.crypto, ContentAccess(t, m, secret).value, d.chunks, pieces);
    }
  }

  /**
   `unwrap` gives `out` exactly when the archive is vouched for and valid and `out` is what its files hold
   for this reader: as they are without an encryption block, and with one only through the reader's own
   entry in it.
   */
  lemma UnwrapMeans(t: Tools, d: Dir, secret: Bytes, signer: Option<Bytes>, out: Bytes)
    ensures Unwrapped(t, d, secret, signer) == Some(out) <==>
              exists m, pieces ::
                && ReadManifest(t, d) == Some(m) && Vouched(t.crypto, m, signer) && ArchiveOk(t, d)
                && Reads(t.crypto, m, secret, d.chunks, pieces) && out == Concat(pieces)
  {
    hide ReadManifest, ArchiveOk, Recovered, Reads, ManifestBytes, Concat;
    var read := ReadManifest(t, d);
    if Unwrapped(t, d, secret, signer) == Some(out) {
      var pieces := ReadsGives(t, d, read.value, secret);
      assert Vouched(t.crypto, read.value, signer);
    }
    if m, pieces :| && read == Some(m) && Vouched(t.crypto, m, signer) && ArchiveOk(t, d)
                    && Reads(t.crypto, m, secret, d.chunks, pieces) && out == Concat(pieces) {
      ReadsTakes(t, d, m, secret, pieces);
    }
  }

  /** With an encryption block, a key that is not a recipient's gets nothing. */
  lemma NotARecipient(t: Tools, d: Dir, secret: Bytes, signer: Option<Bytes>, m: Manifest)
    requires ReadManifest(t, d) == Some(m) && m.encryption.Some?
    requires forall k :: 0 <= k < |m.encryption.value.recipients| ==> m.encryption.value.recipients[k].pub != t.crypto.agreementOf(secret)
    ensures Unwrapped(t, d, secret, signer) == None
  {
    hide ReadManifest, ArchiveOk, Recovered, ManifestBytes, Concat, OpenedPieces;
    var u := Unwrapped(t, d, secret, signer);
    if u.Some? { UnwrapMeans(t, d, secret, signer, u.value); }
  }
}
