/**
 What a wrapped archive is good for: it validates under an exact condition on the call, and every
 listed recipient recovers the payload from it.
 */
module WrapProofs {
  import opened Text
  import opened Primitives
  import opened Records
  import opened Chain
  import opened Streams
  import opened Archive
  import opened Wrap

  /** No `.bin` file was lying in the output directory beyond those the wrap overwrites. */
  predicate NoStale(existing: Dir, n: nat) {
    forall name <- existing.chunks :: EndsWithBin(name) ==> exists i :: 0 <= i < n && ChunkName(i) == name
  }

  function MetadataOf(a: WrapArgs): Metadata { Metadata(a.startedAt, a.endedAt, a.fields) }

  /** The caller-supplied fields a manifest is validated on, as a reader finds them in the file. */
  predicate FieldsValid(t: Tools, a: WrapArgs, link: Option<Link>) {
    && KnownProfile(a.profile) && a.deviceId != "" && t.crypto.publicOf(a.secret) != ""
    && t.readNumber(a.duration).Some?
    && (match t.readMetadata(MetadataOf(a))
        case None => false
        case Some(d) => d.startedAt != "" && d.endedAt != "" && t.profileOk(a.profile, d))
    && (link.Some? ==> ChronicleFieldsValid(Some(link.value.sequence), link.value.prev))
  }

  /** The numbers of the call read back from `manifest.json` as the signed text prints them. */
  predicate AsPrinted(t: Tools, a: WrapArgs) {
    t.readNumber(a.duration) == Some(a.duration) && t.readMetadata(MetadataOf(a)) == Some(MetadataOf(a))
  }

  /** The signature of `m` is also accepted for the manifest a reader finds in its place. */
  predicate SignatureTransfers(t: Tools, m: Manifest) {
    && m.signature.Some? && ReadBack(t, m).Some?
    && Transfers(t.crypto, m.device.publicKey, ManifestBytes(m), ManifestBytes(ReadBack(t, m).value), m.signature.value)
  }

  function ChunkCount(a: WrapArgs, payload: Bytes): nat { |Pieces(payload, a.chunkSize)| }

  function StoredOf(t: Tools, a: WrapArgs, payload: Bytes): seq<Bytes> {
    StoredChunks(t.crypto, a, Pieces(payload, a.chunkSize))
  }

  /** The finished manifest differs from the unsigned one only in what encryption and signing add. */
  lemma FinalManifestShape(t: Tools, a: WrapArgs, link: Option<Link>, stored: seq<Bytes>, m: Manifest)
    requires FinalManifest(t, a, link, stored) == Some(m)
    ensures m.(encryption := None, signature := None) == Unsigned(t, a, link, SegmentsFor(t.crypto, a, stored))
    ensures m.signature == Some(t.crypto.sign(a.secret, ManifestBytes(m)))
    ensures m.encryption.None? <==> a.cek.None?
  {
    assert ManifestTree(m) == ManifestTree(m.(signature := None));
  }

  /** A successful wrap: its files, and the bound the manifest's size puts on the chunk count. */
  lemma WrappedShape(t: Tools, a: WrapArgs, link: Option<Link>, payload: Bytes, existing: Dir, m: Manifest, d: Dir)
    requires ToolLaws(t) && Wrapped(t, a, link, payload, existing) == Some((m, d))
    ensures a.chunkSize <= MAX_CHUNK_SIZE_BYTES && payload != ""
    ensures ChunkCount(a, payload) < U32_LIMIT
    ensures FinalManifest(t, a, link, StoredOf(t, a, payload)) == Some(m)
    ensures m.segments == SegmentsFor(t.crypto, a, StoredOf(t, a, payload))
    ensures ReadManifest(t, d) == ReadBack(t, m)
    ensures d.chunks == Written(existing.chunks, StoredOf(t, a, payload))
  {
    hide FinalManifest, ManifestBytes, Written, Pieces;
    FinalManifestShape(t, a, link, StoredOf(t, a, payload), m);
    assert |t.crypto.sign(a.secret, ManifestBytes(m))| == SIGNATURE_LEN;
    assert t.decode(t.encode(m)) == ReadBack(t, m);
  }

  /** Reading back changes numbers only. */
  lemma ReadBackKeeps(t: Tools, m: Manifest, n: Manifest)
    requires ReadBack(t, m) == Some(n)
    ensures n.(chunkDuration := m.chunkDuration, metadata := m.metadata, segments := m.segments) == m
    ensures |n.segments| == |m.segments|
    ensures forall i :: 0 <= i < |m.segments| ==> n.segments[i].(duration := m.segments[i].duration) == m.segments[i]
  {
  }

  /** What reads back, and what reads back unchanged, told from the call. */
  lemma WrappedReadBack(t: Tools, a: WrapArgs, link: Option<Link>, stored: seq<Bytes>, m: Manifest)
    requires FinalManifest(t, a, link, stored) == Some(m)
    ensures ReadBack(t, m).Some? <==> t.readNumber(a.duration).Some? && t.readMetadata(MetadataOf(a)).Some?
    ensures ReadBack(t, m).Some? ==> Some(ReadBack(t, m).value.metadata) == t.readMetadata(MetadataOf(a))
    ensures ReadBack(t, m) == Some(m) <==> AsPrinted(t, a)
  {
    hide ManifestBytes, Continuity, ChunkName, Hashes, Hex;
    FinalManifestShape(t, a, link, stored, m);
    assert m.chunkDuration == a.duration && m.metadata == MetadataOf(a) && m.segments == SegmentsFor(t.crypto, a, stored);
    assert forall i :: 0 <= i < |m.segments| ==> m.segments[i].duration == a.duration;
    if AsPrinted(t, a) { assert ReadSegments(t, m.segments) == m.segments; }
  }

  /** A manifest that reads back changed has another signed text. */
  lemma ReadBackText(t: Tools, m: Manifest, n: Manifest)
    requires ReadBack(t, m) == Some(n) && n != m && m.device.keyEpoch != Some(0)
    ensures ManifestBytes(n) != ManifestBytes(m)
  {
    hide ManifestBytes;
    ReadBackKeeps(t, m, n);
    assert n.(signature := None).(signature := m.signature) == n && m.(signature := None).(signature := m.signature) == m;
    if ManifestBytes(n) == ManifestBytes(m) { ManifestBytesInjective(n, m); }
  }

  /** The chunk files back a manifest exactly when they back what it reads back as. */
  lemma ReadBackBacked(t: Tools, m: Manifest, n: Manifest, chunks: map<Bytes, Bytes>)
    requires ReadBack(t, m) == Some(n)
    ensures Backed(t.crypto, n, chunks) <==> Backed(t.crypto, m, chunks)
    ensures NoStrays(n, chunks) <==> NoStrays(m, chunks)
  {
    hide ReadBack, Continuity, ChunkName, Hex, HexDecode, EndsWithBin, FileHashes;
    ReadBackKeeps(t, m, n);
    var k := |m.segments|;
    forall i | 0 <= i < k
      ensures n.segments[i].chunkFile == m.segments[i].chunkFile && n.segments[i].blake3Hash == m.segments[i].blake3Hash
      ensures n.segments[i].continuityHash == m.segments[i].continuityHash
    {
      assert n.segments[i].(duration := m.segments[i].duration) == m.segments[i];
    }
    assert forall i :: 0 <= i < k ==> (SegmentOk(t.crypto, n.segments[i], chunks, i) <==> SegmentOk(t.crypto, m.segments[i], chunks, i));
  }

  /** No chunk file exceeds what readers accept. */
  lemma StoredWithinCap(t: Tools, a: WrapArgs, payload: Bytes, i: nat)
    requires AeadLaws(t.crypto) && a.chunkSize <= MAX_CHUNK_SIZE_BYTES && i < ChunkCount(a, payload)
    ensures |StoredOf(t, a, payload)[i]| <= MAX_STORED_CHUNK_BYTES
  {
    SplitPieces(payload, a.chunkSize);
  }

  lemma WrittenSegmentOk(t: Tools, a: WrapArgs, payload: Bytes, existing: Dir, i: nat)
    requires HashLaws(t.crypto) && AeadLaws(t.crypto) && a.chunkSize <= MAX_CHUNK_SIZE_BYTES
    requires i < ChunkCount(a, payload) < U32_LIMIT
    ensures var stored := StoredOf(t, a, payload);
            SegmentOk(t.crypto, SegmentFor(t.crypto, a, stored, i), Written(existing.chunks, stored), i)
  {
    var c, stored := t.crypto, StoredOf(t, a, payload);
    WrittenAt(existing.chunks, stored, i);
    StoredWithinCap(t, a, payload, i);
    HexRoundTrip(Continuity(c, Hashes(c, stored), i + 1));
  }

  lemma WrittenHashes(c: Crypto, base: map<Bytes, Bytes>, stored: seq<Bytes>)
    requires |stored| < U32_LIMIT
    ensures FileHashes(c, Written(base, stored), |stored|) == Hashes(c, stored)
  {
    forall i | 0 <= i < |stored|
      ensures FileHashes(c, Written(base, stored), |stored|)[i] == Hashes(c, stored)[i]
    {
      WrittenAt(base, stored, i);
    }
  }

  lemma WrittenContinuityOk(c: Crypto, a: WrapArgs, base: map<Bytes, Bytes>, stored: seq<Bytes>, m: Manifest)
    requires HashLaws(c) && |stored| < U32_LIMIT && m.segments == SegmentsFor(c, a, stored)
    ensures ContinuityOk(c, m, Written(base, stored))
  {
    WrittenHashes(c, base, stored);
    forall i | 0 <= i < |stored|
      ensures HexDecode(m.segments[i].continuityHash) == Some(Continuity(c, Hashes(c, stored), i + 1))
    {
      HexRoundTrip(Continuity(c, Hashes(c, stored), i + 1));
    }
  }

  lemma StraysAreStale(existing: Dir, stored: seq<Bytes>, m: Manifest)
    requires |stored| == |m.segments| < U32_LIMIT
    requires forall i :: 0 <= i < |stored| ==> m.segments[i].chunkFile == ChunkName(i)
    ensures NoStrays(m, Written(existing.chunks, stored)) <==> NoStale(existing, |stored|)
  {
    hide Written, ChunkName;
    var after := Written(existing.chunks, stored);
    if NoStrays(m, after) {
      forall name | name in existing.chunks && EndsWithBin(name)
        ensures exists i :: 0 <= i < |stored| && ChunkName(i) == name
      {
        WrittenElsewhere(existing.chunks, stored, name);
        var i :| 0 <= i < |m.segments| && m.segments[i].chunkFile == name;
        assert ChunkName(i) == name;
      }
    }
    if NoStale(existing, |stored|) {
      forall name | name in after && EndsWithBin(name)
        ensures exists i :: 0 <= i < |m.segments| && m.segments[i].chunkFile == name
      {
        WrittenElsewhere(existing.chunks, stored, name);
        var i :| 0 <= i < |stored| && ChunkName(i) == name;
        assert m.segments[i].chunkFile == name;
      }
    }
  }

  lemma SegmentFieldsPresent(c: Crypto, a: WrapArgs, stored: seq<Bytes>, i: nat)
    requires HashLaws(c) && i < |stored|
    ensures var s := SegmentFor(c, a, stored, i); s.chunkFile != "" && s.blake3Hash != "" && s.continuityHash != ""
  {
    HexRoundTrip(c.hash(stored[i]));
    HexRoundTrip(Continuity(c, Hashes(c, stored), i + 1));
    ChunkNameDigits(U32(i));
  }

  lemma RecipientsPresent(t: Tools, a: WrapArgs, pre: Manifest)
    requires Encrypted(t, a, pre).Some? && pre.encryption.None?
    ensures var e := Encrypted(t, a, pre).value.encryption; e.Some? ==> e.value.recipients != []
  {
  }

  lemma WrappedManifestValid(t: Tools, a: WrapArgs, link: Option<Link>, stored: seq<Bytes>, m: Manifest, n: Manifest)
    requires HashLaws(t.crypto) && FinalManifest(t, a, link, stored) == Some(m) && ReadBack(t, m) == Some(n)
    ensures ManifestValid(t, n) <==> stored != [] && FieldsValid(t, a, link)
  {
    hide SegmentFor, ManifestBytes, ReadBack;
    FinalManifestShape(t, a, link, stored, m);
    WrappedReadBack(t, a, link, stored, m);
    ReadBackKeeps(t, m, n);
    RecipientsPresent(t, a, Unsigned(t, a, link, SegmentsFor(t.crypto, a, stored)));
    forall i | 0 <= i < |n.segments|
      ensures n.segments[i].chunkFile != "" && n.segments[i].blake3Hash != "" && n.segments[i].continuityHash != ""
    {
      assert m.segments[i] == SegmentFor(t.crypto, a, stored, i);
      assert n.segments[i].(duration := m.segments[i].duration) == m.segments[i];
      SegmentFieldsPresent(t.crypto, a, stored, i);
    }
  }

  /** The chunk files of a successful wrap are the ones its segments describe, whatever else lies beside them. */
  lemma WrappedIsBacked(t: Tools, a: WrapArgs, link: Option<Link>, payload: Bytes, existing: Dir, m: Manifest, d: Dir)
    requires ToolLaws(t) && Wrapped(t, a, link, payload, existing) == Some((m, d))
    ensures Backed(t.crypto, m, d.chunks)
  {
    hide Wrapped, FinalManifest, SegmentOk, ContinuityOk, ReadManifest, Written;
    WrappedShape(t, a, link, payload, existing, m, d);
    WrittenContinuityOk(t.crypto, a, existing.chunks, StoredOf(t, a, payload), m);
    forall i | 0 <= i < |m.segments| ensures SegmentOk(t.crypto, m.segments[i], d.chunks, i) {
      WrittenSegmentOk(t, a, payload, existing, i);
    }
  }

  /**
   A successful wrap validates exactly when the chunk size is not 0, no stale chunk file was lying in
   the output directory, and the caller's fields are well formed, numbers that JSON can hold included.
   */
  lemma WrapValidates(t: Tools, a: WrapArgs, link: Option<Link>, payload: Bytes, existing: Dir, m: Manifest, d: Dir)
    requires ToolLaws(t) && Wrapped(t, a, link, payload, existing) == Some((m, d))
    ensures ArchiveOk(t, d) <==>
              a.chunkSize > 0 && NoStale(existing, ChunkCount(a, payload)) && FieldsValid(t, a, link)
  {
    hide Wrapped, FinalManifest, ManifestValid, NoStrays, NoStale, Backed, ReadManifest, Written, ReadBack, ChronicleFieldsValid;
    WrappedShape(t, a, link, payload, existing, m, d);
    var stored := StoredOf(t, a, payload);
    WrappedReadBack(t, a, link, stored, m);
    StraysAreStale(existing, stored, m);
    WrappedIsBacked(t, a, link, payload, existing, m, d);
    if ReadBack(t, m).Some? {
      var n := ReadBack(t, m).value;
      WrappedManifestValid(t, a, link, stored, m, n);
      ReadBackBacked(t, m, n, d.chunks);
    }
  }

  /** A chunk size of 0 is not refused, and leaves an archive no reader accepts. */
  lemma ZeroChunkSizeFails(t: Tools, a: WrapArgs, link: Option<Link>, payload: Bytes, existing: Dir)
    requires ToolLaws(t) && a.chunkSize == 0 && payload != "" && a.cek.None? && a.recipients == []
    requires var m := FinalManifest(t, a, link, []).value; |t.encode(m)| <= MANIFEST_MAX_BYTES
    ensures Wrapped(t, a, link, payload, existing).Some?
    ensures !ArchiveOk(t, Wrapped(t, a, link, payload, existing).value.1)
  {
    assert StoredOf(t, a, payload) == [];
    var (m, d) := Wrapped(t, a, link, payload, existing).value;
    WrapValidates(t, a, link, payload, existing, m, d);
  }

  /** A chunk duration that is not finite is not refused either, and leaves a manifest nobody can read. */
  lemma NotFiniteDurationFails(t: Tools, a: WrapArgs, link: Option<Link>, payload: Bytes, existing: Dir, m: Manifest, d: Dir)
    requires ToolLaws(t) && NotFinite(a.duration) && Wrapped(t, a, link, payload, existing) == Some((m, d))
    ensures ReadManifest(t, d).None? && !ArchiveOk(t, d)
  {
    hide Wrapped, FinalManifest, ReadManifest, Written, ReadBack;
    WrappedShape(t, a, link, payload, existing, m, d);
    WrappedReadBack(t, a, link, StoredOf(t, a, payload), m);
  }

  // ── Recovery ───────────────────────────────────────────────────────────────

  /** The holder of `secret` has the wrapping device's agreement key or one of the listed ones. */
  predicate MayRead(t: Tools, a: WrapArgs, secret: Bytes) {
    a.cek.None? || t.crypto.agreementOf(secret) == t.crypto.agreementOf(a.agreementSecret)
    || t.crypto.agreementOf(secret) in a.recipients
  }

  /** How a listed reader gets at the chunks. */
  function AccessOf(t: Tools, a: WrapArgs): Content {
    match a.cek
    case None => Plain
    case Some(key) => Keyed(key, ChunkAad(t.crypto, t.crypto.publicOf(a.secret), a.profile, a.startedAt))
  }

  /** Whichever entry the search finds for a listed key, it opens to the content key. */
  lemma FoundEntryOpens(t: Tools, a: WrapArgs, key: Key32, info: Bytes, digest: Bytes, pubs: seq<Bytes>, rs: seq<Recipient>, secret: Bytes)
    requires HpkeLaws(t.crypto)
    requires SealedForAll(t, a, key, info, digest, pubs) == Some(rs) && t.crypto.agreementOf(secret) in pubs
    ensures var found := FindRecipient(rs, t.crypto.agreementOf(secret));
            found.Some? && t.crypto.hpkeOpen(secret, found.value.enc, info, digest, found.value.wrappedCek) == Some(key)
  {
    var mine := t.crypto.agreementOf(secret);
    var k :| 0 <= k < |pubs| && pubs[k] == mine;
    assert SealedFor(t, a, key, info, digest, pubs[k], k) == Some(rs[k]);
    assert rs[k] in rs && rs[k].pub == mine;
    var entry := FindRecipient(rs, mine).value;
    var j :| 0 <= j < |rs| && rs[j] == entry;
    assert SealedFor(t, a, key, info, digest, pubs[j], j) == Some(entry);
    var (enc, wrapped) := t.crypto.hpkeSeal(a.ephemeral(j), mine, info, digest, key);
    assert t.crypto.hpkeOpen(secret, enc, info, digest, wrapped) == Some(key);
  }

  function ReaderKeys(t: Tools, a: WrapArgs): seq<Bytes> {
    RecipientKeys([t.crypto.agreementOf(a.agreementSecret)], a.recipients)
  }

  lemma ReaderListed(t: Tools, a: WrapArgs, secret: Bytes)
    requires a.cek.Some?
    ensures t.crypto.agreementOf(secret) in ReaderKeys(t, a) <==> MayRead(t, a, secret)
  {
    assert ReaderKeys(t, a)[0] == t.crypto.agreementOf(a.agreementSecret);
  }

  /** The encryption block of the finished manifest, and the digest its entries are bound to. */
  lemma EncryptionBlock(t: Tools, a: WrapArgs, link: Option<Link>, stored: seq<Bytes>, m: Manifest)
    requires FinalManifest(t, a, link, stored) == Some(m) && a.cek.Some?
    ensures m.encryption.Some?
    ensures SealedForAll(t, a, a.cek.value, CekWrapInfo(m.device.publicKey, m.version),
                         t.crypto.hash(ManifestBytes(m.(encryption := None))), ReaderKeys(t, a))
            == Some(m.encryption.value.recipients)
  {
    hide RecipientKeys, SealedForAll, SegmentsFor;
    var pre := Unsigned(t, a, link, SegmentsFor(t.crypto, a, stored));
    assert ManifestTree(m.(encryption := None)) == ManifestTree(pre);
  }

  lemma ListedReaderHasAccess(t: Tools, a: WrapArgs, link: Option<Link>, stored: seq<Bytes>, m: Manifest, secret: Bytes)
    requires HpkeLaws(t.crypto) && FinalManifest(t, a, link, stored) == Some(m) && MayRead(t, a, secret)
    ensures ContentAccess(t, m, secret) == Some(AccessOf(t, a))
  {
    hide FinalManifest, ManifestBytes, SealedForAll, FindRecipient, MayRead, ReaderKeys, ChunkAad, CekWrapInfo, SegmentsFor;
    FinalManifestShape(t, a, link, stored, m);
    if a.cek.Some? {
      EncryptionBlock(t, a, link, stored, m);
      ReaderListed(t, a, secret);
      FoundEntryOpens(t, a, a.cek.value, CekWrapInfo(m.device.publicKey, m.version),
                      t.crypto.hash(ManifestBytes(m.(encryption := None))), ReaderKeys(t, a),
                      m.encryption.value.recipients, secret);
    }
  }

  /** Nobody else finds an entry to open. */
  lemma UnlistedReaderHasNone(t: Tools, a: WrapArgs, link: Option<Link>, stored: seq<Bytes>, m: Manifest, secret: Bytes)
    requires FinalManifest(t, a, link, stored) == Some(m) && !MayRead(t, a, secret)
    ensures ContentAccess(t, m, secret) == None
  {
    hide FinalManifest, ManifestBytes, SealedForAll, MayRead, ReaderKeys, ChunkAad, CekWrapInfo, SegmentsFor;
    assert a.cek.Some? by { PlainForAll(t, a, secret); }
    EncryptionBlock(t, a, link, stored, m);
    ReaderListed(t, a, secret);
    var rs := m.encryption.value.recipients;
    SealedPubs(t, a, a.cek.value, CekWrapInfo(m.device.publicKey, m.version),
               t.crypto.hash(ManifestBytes(m.(encryption := None))), ReaderKeys(t, a), rs);
    forall e | e in rs ensures e.pub != t.crypto.agreementOf(secret) {
      var k :| 0 <= k < |rs| && rs[k] == e;
      assert rs[k].pub == ReaderKeys(t, a)[k];
    }
  }

  lemma PlainForAll(t: Tools, a: WrapArgs, secret: Bytes)
    ensures a.cek.None? ==> MayRead(t, a, secret)
  {
  }

  lemma SealedPubs(t: Tools, a: WrapArgs, key: Key32, info: Bytes, digest: Bytes, pubs: seq<Bytes>, rs: seq<Recipient>)
    requires SealedForAll(t, a, key, info, digest, pubs) == Some(rs)
    ensures |rs| == |pubs| && forall i :: 0 <= i < |pubs| ==> rs[i].pub == pubs[i]
  {
    hide SealedForAll;
    forall i | 0 <= i < |pubs| ensures rs[i].pub == pubs[i] {
      assert SealedFor(t, a, key, info, digest, pubs[i], i) == Some(rs[i]);
    }
  }

  lemma StoredChunkOpens(t: Tools, a: WrapArgs, i: nat, chunk: Bytes)
    requires AeadLaws(t.crypto)
    ensures RecoverChunk(t.crypto, AccessOf(t, a), StoredChunk(t.crypto, a, i, chunk)) == Some(chunk)
  {
    if a.cek.Some? {
      var s := StoredChunk(t.crypto, a, i, chunk);
      assert s[..24] == a.nonce(i);
    }
  }

  lemma RecoverNext(c: Crypto, access: Content, chunks: map<Bytes, Bytes>, n: nat, before: Bytes, p: Bytes)
    requires Recover(c, access, chunks, n) == Some(before)
    requires ChunkName(n) in chunks && |chunks[ChunkName(n)]| <= MAX_STORED_CHUNK_BYTES
    requires RecoverChunk(c, access, chunks[ChunkName(n)]) == Some(p)
    ensures Recover(c, access, chunks, n + 1) == Some(before + p)
  {
  }

  lemma PieceRecovers(t: Tools, a: WrapArgs, payload: Bytes, base: map<Bytes, Bytes>, k: nat)
    requires AeadLaws(t.crypto) && a.chunkSize <= MAX_CHUNK_SIZE_BYTES
    requires k < ChunkCount(a, payload) < U32_LIMIT
    ensures var files := Written(base, StoredOf(t, a, payload));
            && ChunkName(k) in files && |files[ChunkName(k)]| <= MAX_STORED_CHUNK_BYTES
            && RecoverChunk(t.crypto, AccessOf(t, a), files[ChunkName(k)]) == Some(Pieces(payload, a.chunkSize)[k])
  {
    hide RecoverChunk, Written, Split, ChunkName, StoredChunk, AccessOf;
    WrittenAt(base, StoredOf(t, a, payload), k);
    StoredWithinCap(t, a, payload, k);
    StoredChunkOpens(t, a, k, Pieces(payload, a.chunkSize)[k]);
  }

  lemma {:induction false} RecoverPieces(t: Tools, a: WrapArgs, payload: Bytes, base: map<Bytes, Bytes>, n: nat)
    requires AeadLaws(t.crypto) && a.chunkSize <= MAX_CHUNK_SIZE_BYTES
    requires n <= ChunkCount(a, payload) < U32_LIMIT
    ensures Recover(t.crypto, AccessOf(t, a), Written(base, StoredOf(t, a, payload)), n)
         == Some(Concat(Pieces(payload, a.chunkSize)[..n]))
  {
    hide RecoverChunk, Written, Pieces, ChunkName, StoredOf, AccessOf, AeadLaws;
    if n > 0 {
      hide Recover, Concat;
      var pieces, k := Pieces(payload, a.chunkSize), n - 1;
      RecoverPieces(t, a, payload, base, k);
      PieceRecovers(t, a, payload, base, k);
      RecoverNext(t.crypto, AccessOf(t, a), Written(base, StoredOf(t, a, payload)), k, Concat(pieces[..k]), pieces[k]);
      ConcatAppend(pieces[..k], pieces[k]);
      assert pieces[..n] == pieces[..k] + [pieces[k]];
    }
  }

  /**
   `unwrap` trusts a wrapped archive that reads back as printed exactly when it validates. One that does
   not is trusted only if its signature passes for a text that was never signed.
   */
  lemma WrappedIsTrusted(t: Tools, a: WrapArgs, link: Option<Link>, payload: Bytes, existing: Dir, m: Manifest, d: Dir)
    requires ToolLaws(t) && Wrapped(t, a, link, payload, existing) == Some((m, d))
    ensures AsPrinted(t, a) ==> (Trusted(t, d, None) <==> ArchiveOk(t, d))
    ensures Trusted(t, d, None) ==> ArchiveOk(t, d) && (AsPrinted(t, a) || SignatureTransfers(t, m))
  {
    hide Wrapped, FinalManifest, ReadManifest, Written, ReadBack, ManifestBytes, ArchiveOk, AsPrinted;
    WrappedShape(t, a, link, payload, existing, m, d);
    var stored := StoredOf(t, a, payload);
    FinalManifestShape(t, a, link, stored, m);
    WrappedReadBack(t, a, link, stored, m);
    var pre := Unsigned(t, a, link, SegmentsFor(t.crypto, a, stored));
    assert m.device == pre.device && m.version == pre.version;
    assert t.crypto.verifies(t.crypto.publicOf(a.secret), ManifestBytes(m), t.crypto.sign(a.secret, ManifestBytes(m)));
    if ReadBack(t, m).Some? {
      var n := ReadBack(t, m).value;
      ReadBackKeeps(t, m, n);
      assert n.device == m.device && n.signature == m.signature && n.version == m.version;
      if n != m { ReadBackText(t, m, n); }
    }
  }

  /** Every listed reader of a wrapped archive recovers exactly the payload, and nobody else anything. */
  lemma UnwrapRecovers(t: Tools, a: WrapArgs, link: Option<Link>, payload: Bytes, existing: Dir, m: Manifest, d: Dir, secret: Bytes)
    requires ToolLaws(t) && Wrapped(t, a, link, payload, existing) == Some((m, d))
    requires a.chunkSize > 0 && AsPrinted(t, a)
    ensures Recovered(t, d, secret) == if MayRead(t, a, secret) then Some(payload) else None
  {
    hide Wrapped, FinalManifest, ReadManifest, ContentAccess, Recover, Written, MayRead, Split, ReadBack, AsPrinted;
    WrappedShape(t, a, link, payload, existing, m, d);
    WrappedReadBack(t, a, link, StoredOf(t, a, payload), m);
    if MayRead(t, a, secret) {
      ListedReaderHasAccess(t, a, link, StoredOf(t, a, payload), m, secret);
      var pieces := Pieces(payload, a.chunkSize);
      RecoverPieces(t, a, payload, existing.chunks, |pieces|);
      SplitPieces(payload, a.chunkSize);
      assert pieces[..|pieces|] == pieces;
    } else {
      UnlistedReaderHasNone(t, a, link, StoredOf(t, a, payload), m, secret);
    }
  }

  /**
   Wrap then unwrap, end to end, into a fresh directory: the payload comes back exactly when the wrap
   succeeds with valid fields whose numbers read back as printed and the reader's agreement key is the
   device's own or a listed one. The one other way to get an answer is a signature that passes for a text
   that was never signed.
   */
  method WrapThenUnwrap(t: Tools, a: WrapArgs, link: Option<Link>, payload: Bytes, secret: Bytes) returns (out: Option<Bytes>)
    requires ToolLaws(t) && a.chunkSize > 0
    ensures var w := Wrapped(t, a, link, payload, Dir(None, None, map[]));
            && (w.Some? && FieldsValid(t, a, link) && AsPrinted(t, a) ==> out == if MayRead(t, a, secret) then Some(payload) else None)
            && (out.Some? ==> && w.Some? && FieldsValid(t, a, link)
                              && (AsPrinted(t, a) || SignatureTransfers(t, w.value.0)))
  {
    hide FieldsValid, AsPrinted, MayRead, SignatureTransfers, Recovered;
    var empty := Dir(None, None, map[]);
    var w, _ := WrapArchive(t, a, true, link, payload, empty);
    if w.None? { return None; }
    var (m, d) := w.value;
    WrapValidates(t, a, link, payload, empty, m, d);
    WrappedIsTrusted(t, a, link, payload, empty, m, d);
    if AsPrinted(t, a) { UnwrapRecovers(t, a, link, payload, empty, m, d, secret); }
    out := Unwrap(t, d, secret, None);
  }
}
