/**
 The `.seal` archive directory: the streaming writer, the bounded readers and whole-archive
 validation.
 */
module Archive {
  import opened Text
  import opened Json
  import opened Primitives
  import opened Records
  import opened Chain
  import opened Streams

  const MANIFEST_MAX_BYTES: nat := 8 * 1024 * 1024
  const SIG_MAX_BYTES: nat := 4 * 1024
  const MAX_CHUNK_SIZE_BYTES: nat := 256 * 1024 * 1024
  const MAX_STORED_CHUNK_BYTES: nat := MAX_CHUNK_SIZE_BYTES + 24 + 16

  /** Everything outside this model: cryptography, serde, the per-profile field checks, key parsing. */
  datatype Tools = Tools(
    crypto: Crypto,
    /** `serde_json::to_string_pretty` and `from_slice` of a manifest. */
    encode: Manifest -> Bytes,
    decode: Bytes -> Option<Manifest>,
    /**
     What `from_slice` makes of the JSON form of an `f64` that the signed text prints as this: the text
     of the number read, or `None` for one JSON cannot hold, which is written as `null`.
     */
    readNumber: NumText -> Option<NumText>,
    /** What it makes of a metadata block, whose numbers each profile has of its own. */
    readMetadata: Metadata -> Option<Metadata>,
    /** `rotation.json`. */
    encodeRotation: RotationRecord -> Bytes,
    decodeRotation: Bytes -> Option<RotationRecord>,
    /** The part of `TrstManifest::validate` that looks at the metadata a profile has of its own. */
    profileOk: (Bytes, Metadata) -> bool,
    /** `recipient_id`, `None` when the key string is malformed. */
    recipientId: Bytes -> Option<Bytes>)

  /** The texts of the numbers JSON has no form for. */
  predicate NotFinite(n: NumText) { n == "inf" || n == "-inf" || n == "NaN" }

  function ReadSegment(t: Tools, s: Segment): Segment {
    var n := t.readNumber(s.duration);
    if n.Some? then s.(duration := n.value) else s
  }

  function ReadSegments(t: Tools, ss: seq<Segment>): (r: seq<Segment>)
    ensures |r| == |ss| && forall i :: 0 <= i < |ss| ==> r[i] == ReadSegment(t, ss[i])
  {
    seq(|ss|, i requires 0 <= i < |ss| => ReadSegment(t, ss[i]))
  }

  /**
   The manifest a reader gets from the file written for `m`: every number as it reads back, or nothing
   at all when a duration or the metadata does not read.
   */
  function ReadBack(t: Tools, m: Manifest): Option<Manifest> {
    match (t.readNumber(m.chunkDuration), t.readMetadata(m.metadata))
    case (Some(n), Some(d)) =>
      if exists i :: 0 <= i < |m.segments| && t.readNumber(m.segments[i].duration).None? then None
      else Some(m.(chunkDuration := n, metadata := d, segments := ReadSegments(t, m.segments)))
    case _ => None
  }

  ghost predicate ToolLaws(t: Tools) {
    && Lawful(t.crypto)
    && (forall m: Manifest :: t.decode(t.encode(m)) == ReadBack(t, m))
    && (forall n: NumText :: NotFinite(n) ==> t.readNumber(n).None?)
    && (forall m: Manifest :: |t.encode(m)| >= |m.segments|)
    && (forall r: RotationRecord :: t.decodeRotation(t.encodeRotation(r)) == Some(r))
    && (forall sk: Bytes :: t.recipientId(t.crypto.agreementOf(sk)).Some?)
  }

  /** An archive directory: the two metadata files and the files under `chunks/`. */
  datatype Dir = Dir(manifest: Option<Bytes>, sig: Option<Bytes>, chunks: map<Bytes, Bytes>)

  // ── Manifest validation ────────────────────────────────────────────────────

  predicate KnownProfile(p: Bytes) {
    p == "generic" || p == "cam.video" || p == "sensor" || p == "audio" || p == "log"
  }

  /** Chronicle fields: standalone, genesis, or a position above 0 with a well-formed predecessor. */
  predicate ChronicleFieldsValid(sequence: Option<nat>, prev: Option<Bytes>) {
    match (sequence, prev)
    case (None, None) => true
    case (None, Some(_)) => false
    case (Some(n), None) => n == 0
    case (Some(n), Some(p)) => n != 0 && IsArchiveId(p)
  }

  /** `TrstManifest::validate`. */
  predicate ManifestValid(t: Tools, m: Manifest) {
    && m.version != ""
    && KnownProfile(m.profile)
    && m.device.id != "" && m.device.publicKey != ""
    && m.metadata.startedAt != "" && m.metadata.endedAt != ""
    && t.profileOk(m.profile, m.metadata)
    && m.segments != []
    && (forall i :: 0 <= i < |m.segments| ==>
          m.segments[i].chunkFile != "" && m.segments[i].blake3Hash != "" && m.segments[i].continuityHash != "")
    && (m.encryption.Some? ==> m.encryption.value.recipients != [])
    && ChronicleFieldsValid(m.sequence, m.prev)
    && m.device.keyEpoch != Some(0)
  }

  // ── Bounded reads ──────────────────────────────────────────────────────────

  /** `read_capped`: reads one byte past the cap and refuses if it is there. */
  function ReadCapped(file: Option<Bytes>, max: nat): (r: Option<Bytes>)
    ensures r == if file.Some? && |file.value| <= max then file else None
  {
    match file
    case None => None
    case Some(bytes) =>
      var buf := bytes[..Min(|bytes|, max + 1)];
      if |buf| > max then None else assert buf == bytes; Some(buf)
  }

  /** `read_manifest`: both files capped, embedded and detached signatures equal. */
  function ReadManifest(t: Tools, d: Dir): (r: Option<Manifest>)
    ensures r.Some? <==> && d.manifest.Some? && |d.manifest.value| <= MANIFEST_MAX_BYTES
                         && d.sig.Some? && |d.sig.value| <= SIG_MAX_BYTES
                         && t.decode(d.manifest.value).Some?
                         && t.decode(d.manifest.value).value.signature in {None, d.sig}
    ensures r.Some? ==> r == t.decode(d.manifest.value)
  {
    match (ReadCapped(d.manifest, MANIFEST_MAX_BYTES), ReadCapped(d.sig, SIG_MAX_BYTES))
    case (Some(json), Some(sig)) =>
      (match t.decode(json)
       case Some(m) => if m.signature.Some? && m.signature.value != sig then None else Some(m)
       case None => None)
    case _ => None
  }

  const HASH_BUFFER: nat := 64 * 1024

  /** `stream_hash_chunk`: hashing through a fixed buffer is hashing the file, or a refusal above the cap. */
  method StreamHashChunk(c: Crypto, file: Bytes) returns (r: Option<Bytes>)
    ensures r == if |file| <= MAX_STORED_CHUNK_BYTES then Some(c.hash(file)) else None
  {
    var reader := new Reader(file);
    var buf := new char[HASH_BUFFER];
    var fed := "";
    var total := 0;
    while true
      invariant reader.Valid() && reader.data == file
      invariant fed == file[..reader.pos] && total == reader.pos <= MAX_STORED_CHUNK_BYTES
      decreases |file| - reader.pos
    {
      var n := reader.Read(buf, 0);
      if n == 0 { break; }
      total := total + n;
      if total > MAX_STORED_CHUNK_BYTES { return None; }
      fed := fed + buf[..n];
      assert file[..reader.pos] == file[..reader.pos - n] + file[reader.pos - n..reader.pos];
    }
    assert file[..reader.pos] == file;
    return Some(c.hash(fed));
  }

  // ── Whole-archive validation ───────────────────────────────────────────────

  /** The `.bin` files present are all named by a segment. */
  predicate NoStrays(m: Manifest, chunks: map<Bytes, Bytes>) {
    forall name <- chunks :: EndsWithBin(name) ==> exists i :: 0 <= i < |m.segments| && m.segments[i].chunkFile == name
  }

  predicate SegmentOk(c: Crypto, s: Segment, chunks: map<Bytes, Bytes>, i: nat) {
    var name := ChunkName(i);
    && s.chunkFile == name
    && name in chunks
    && |chunks[name]| <= MAX_STORED_CHUNK_BYTES
    && s.blake3Hash == Hex(c.hash(chunks[name]))
    && HexDecode(s.continuityHash).Some? && |HexDecode(s.continuityHash).value| == DIGEST_LEN
  }

  function FileHash(c: Crypto, chunks: map<Bytes, Bytes>, i: nat): Bytes {
    if ChunkName(i) in chunks then c.hash(chunks[ChunkName(i)]) else ""
  }

  function FileHashes(c: Crypto, chunks: map<Bytes, Bytes>, n: nat): (hs: seq<Bytes>)
    ensures |hs| == n && forall i :: 0 <= i < n ==> hs[i] == FileHash(c, chunks, i)
  {
    seq(n, i requires 0 <= i < n => FileHash(c, chunks, i))
  }

  /** Segment `i` records the running fold of the chunk files up to it. */
  predicate ContinuityOk(c: Crypto, m: Manifest, chunks: map<Bytes, Bytes>) {
    forall i :: 0 <= i < |m.segments| ==>
      HexDecode(m.segments[i].continuityHash) == Some(Continuity(c, FileHashes(c, chunks, |m.segments|), i + 1))
  }

  /** The chunk files are the ones the segments describe. */
  predicate Backed(c: Crypto, m: Manifest, chunks: map<Bytes, Bytes>) {
    && (forall i :: 0 <= i < |m.segments| ==> SegmentOk(c, m.segments[i], chunks, i))
    && ContinuityOk(c, m, chunks)
  }

  /** What validation demands of a manifest and the chunk files beside it. */
  predicate ContentOk(t: Tools, m: Manifest, chunks: map<Bytes, Bytes>) {
    && NoStrays(m, chunks)
    && ManifestValid(t, m)
    && Backed(t.crypto, m, chunks)
  }

  predicate ArchiveOk(t: Tools, d: Dir) {
    ReadManifest(t, d).Some? && ContentOk(t, ReadManifest(t, d).value, d.chunks)
  }

  method ReferencesAll(m: Manifest, chunks: map<Bytes, Bytes>) returns (ok: bool)
    ensures ok <==> NoStrays(m, chunks)
  {
    var expected := set i | 0 <= i < |m.segments| :: m.segments[i].chunkFile;
    var names := chunks.Keys;
    while names != {}
      invariant names <= chunks.Keys
      invariant forall name <- chunks :: name !in names && EndsWithBin(name) ==> name in expected
      decreases |names|
    {
      var name :| name in names;
      if EndsWithBin(name) && name !in expected { return false; }
      names := names - {name};
    }
    return true;
  }

  /** What the chain check is told about one segment. */
  function ChainEntry(c: Crypto, s: Segment, chunks: map<Bytes, Bytes>, i: nat): ChainSegment
    requires HexDecode(s.continuityHash).Some?
  {
    ChainSegment(i, FileHash(c, chunks, i), HexDecode(s.continuityHash).value)
  }

  method CheckSegment(c: Crypto, s: Segment, chunks: map<Bytes, Bytes>, i: nat) returns (r: Option<ChainSegment>)
    ensures r.Some? <==> SegmentOk(c, s, chunks, i)
    ensures r.Some? ==> r.value == ChainEntry(c, s, chunks, i)
  {
    var name := ChunkName(i);
    if s.chunkFile != name || name !in chunks { return None; }
    var computed := StreamHashChunk(c, chunks[name]);
    if computed.None? || s.blake3Hash != Hex(computed.value) { return None; }
    var stored := HexDecode(s.continuityHash);
    if stored.None? || |stored.value| != DIGEST_LEN { return None; }
    return Some(ChainSegment(i, computed.value, stored.value));
  }

  /** The per-segment checks, in order; on success the list handed to the chain check. */
  method HashSegments(c: Crypto, m: Manifest, chunks: map<Bytes, Bytes>) returns (r: Option<seq<ChainSegment>>)
    ensures r.Some? <==> forall i :: 0 <= i < |m.segments| ==> SegmentOk(c, m.segments[i], chunks, i)
    ensures r.Some? ==> |r.value| == |m.segments| && forall i :: 0 <= i < |m.segments| ==>
      r.value[i] == ChainEntry(c, m.segments[i], chunks, i)
  {
    var segments: seq<ChainSegment> := [];
    for i := 0 to |m.segments|
      invariant |segments| == i
      invariant forall k :: 0 <= k < i ==> SegmentOk(c, m.segments[k], chunks, k)
      invariant forall k :: 0 <= k < i ==> segments[k] == ChainEntry(c, m.segments[k], chunks, k)
    {
      var checked := CheckSegment(c, m.segments[i], chunks, i);
      if checked.None? { return None; }
      segments := segments + [checked.value];
    }
    return Some(segments);
  }

  /** `validate_archive`, streaming each chunk through the hasher. */
  method ValidateArchive(t: Tools, d: Dir) returns (ok: bool)
    ensures ok <==> ArchiveOk(t, d)
  {
    var read := ReadManifest(t, d);
    if read.None? { return false; }
    var m := read.value;
    var referenced := ReferencesAll(m, d.chunks);
    if !referenced || !ManifestValid(t, m) { return false; }
    var segments := HashSegments(t.crypto, m, d.chunks);
    if segments.None? { return false; }
    assert StoredHashes(segments.value) == FileHashes(t.crypto, d.chunks, |m.segments|);
    var verdict := ValidateChain(t.crypto, segments.value);
    return verdict.ChainOk?;
  }

  // ── Streaming writer ───────────────────────────────────────────────────────

  /** Chunk files after writing `stored` in order over `base`; the index is a `u32`. */
  function Written(base: map<Bytes, Bytes>, stored: seq<Bytes>): map<Bytes, Bytes> {
    if stored == [] then base
    else Written(base, stored[..|stored| - 1])[ChunkName(U32(|stored| - 1)) := stored[|stored| - 1]]
  }

  function Hashes(c: Crypto, stored: seq<Bytes>): (hs: seq<Bytes>)
    ensures |hs| == |stored| && forall i :: 0 <= i < |stored| ==> hs[i] == c.hash(stored[i])
  {
    seq(|stored|, i requires 0 <= i < |stored| => c.hash(stored[i]))
  }

  lemma OneMoreLink(c: Crypto, stored: seq<Bytes>, bytes: Bytes)
    ensures Continuity(c, Hashes(c, stored + [bytes]), |stored| + 1)
         == ChainNext(c, Continuity(c, Hashes(c, stored), |stored|), c.hash(bytes))
  {
    var n := |stored|;
    var hs, hs' := Hashes(c, stored), Hashes(c, stored + [bytes]);
    assert forall i :: 0 <= i < n ==> hs'[i] == c.hash(stored[i]);
    ContinuityPrefix(c, hs', hs, n);
    assert hs'[n] == c.hash(bytes);
  }

  lemma OneMoreFile(base: map<Bytes, Bytes>, stored: seq<Bytes>, bytes: Bytes)
    ensures Written(base, stored + [bytes]) == Written(base, stored)[ChunkName(U32(|stored|)) := bytes]
  {
    assert (stored + [bytes])[..|stored|] == stored;
  }

  datatype ChunkOutcome = ChunkOutcome(index: nat, blake3: Bytes, continuity: Bytes, storedLen: nat)

  class ArchiveWriter {
    const crypto: Crypto
    var dir: Dir
    var nextIndex: nat
    var chainState: Bytes
    ghost const base: map<Bytes, Bytes>
    ghost var stored: seq<Bytes>

    ghost predicate Valid()
      reads this
    {
      && nextIndex == U32(|stored|)
      && chainState == Continuity(crypto, Hashes(crypto, stored), |stored|)
      && dir.chunks == Written(base, stored)
    }

    /** `create`: directories are made if missing, files already there stay. */
    constructor (c: Crypto, existing: Dir)
      ensures Valid() && stored == [] && dir == existing && base == existing.chunks && crypto == c
    {
      crypto, dir, nextIndex, chainState := c, existing, 0, Genesis(c);
      base, stored := existing.chunks, [];
    }

    method PushChunk(bytes: Bytes) returns (o: ChunkOutcome)
      requires Valid()
      modifies this
      ensures Valid() && stored == old(stored) + [bytes]
      ensures dir == old(dir).(chunks := dir.chunks)
      ensures o == ChunkOutcome(U32(|old(stored)|), crypto.hash(bytes),
                                Continuity(crypto, Hashes(crypto, stored), |stored|), |bytes|)
    {
      hide ChunkName, Written, Continuity, Hashes, U32;
      var blake3 := crypto.hash(bytes);
      var continuity := ChainNext(crypto, chainState, blake3);
      o := ChunkOutcome(nextIndex, blake3, continuity, |bytes|);
      dir := dir.(chunks := dir.chunks[ChunkName(nextIndex) := bytes]);
      chainState := continuity;
      nextIndex := U32(nextIndex + 1);
      U32Step(|stored|);
      OneMoreLink(crypto, stored, bytes);
      OneMoreFile(base, stored, bytes);
      stored := stored + [bytes];
    }

    /** `finalize`: refuses a wrong segment count or a manifest above the reader's cap. */
    method Finalize(t: Tools, manifest: Manifest, sig: Bytes) returns (ok: bool)
      requires Valid()
      modifies this
      ensures Valid() && stored == old(stored)
      ensures ok <==> |manifest.segments| == U32(|stored|) && |t.encode(manifest)| <= MANIFEST_MAX_BYTES
      ensures dir == if ok then Dir(Some(t.encode(manifest)), Some(sig), old(dir.chunks)) else old(dir)
    {
      if |manifest.segments| != nextIndex { return false; }
      var json := t.encode(manifest);
      if |json| > MANIFEST_MAX_BYTES { return false; }
      dir := Dir(Some(json), Some(sig), dir.chunks);
      return true;
    }
  }

  /** Below the index limit every chunk keeps its own file. */
  lemma {:induction false} WrittenAt(base: map<Bytes, Bytes>, stored: seq<Bytes>, i: nat)
    requires i < |stored| <= U32_LIMIT
    ensures ChunkName(i) in Written(base, stored) && Written(base, stored)[ChunkName(i)] == stored[i]
  {
    var last := |stored| - 1;
    if i < last {
      WrittenAt(base, stored[..last], i);
      if ChunkName(i) == ChunkName(last) { ChunkNameInjective(i, last); }
    }
  }

  /** Writing adds exactly the chunk names; every other file is untouched. */
  lemma {:induction false} WrittenElsewhere(base: map<Bytes, Bytes>, stored: seq<Bytes>, name: Bytes)
    requires |stored| <= U32_LIMIT
    ensures name in Written(base, stored) <==> name in base || exists i :: 0 <= i < |stored| && ChunkName(i) == name
    ensures name in base && (forall i :: 0 <= i < |stored| ==> ChunkName(i) != name) ==> Written(base, stored)[name] == base[name]
  {
    if stored != [] {
      var last := |stored| - 1;
      WrittenElsewhere(base, stored[..last], name);
    }
  }
}
