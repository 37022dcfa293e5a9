/**
 Producing and recovering archives: the streaming chunk loop of `seal wrap`, the manifest it
 signs, and `seal unwrap`.
 */
module Wrap {
  import opened Text
  import opened Json
  import opened Primitives
  import opened Records
  import opened Chain
  import opened Streams
  import opened Sorting
  import opened Archive

  /** A resolved chronicle position. */
  datatype Link = Link(sequence: nat, prev: Option<Bytes>, keyEpoch: nat)

  /**
   The inputs of one wrap. Random draws are functions of the draw's position: chunk nonces by chunk
   index, HPKE ephemerals by recipient index. `cek` is absent for `--sign-only`.
   */
  datatype WrapArgs = WrapArgs(
    chunkSize: nat, cek: Option<Key32>, nonce: nat -> Nonce24, ephemeral: nat -> Bytes,
    startTime: nat -> Bytes, duration: NumText,
    profile: Bytes, startedAt: Bytes, endedAt: Bytes, fields: Members, deviceId: Bytes,
    secret: Bytes, agreementSecret: Bytes, recipients: seq<Bytes>)

  // ── Chunks ─────────────────────────────────────────────────────────────────

  /** `chunk_aad_v2`. */
  function ChunkAad(c: Crypto, publicKey: Bytes, profile: Bytes, startedAt: Bytes): Bytes {
    c.hash("sealedge/aad/v1" + publicKey + profile + startedAt)
  }

  /** Where the read loop cuts the payload; a size of 0 yields no buffer at all. */
  function Pieces(data: Bytes, size: nat): seq<Bytes> { if size == 0 then [] else Split(data, size) }

  /** The bytes put on disk for chunk `i`: `nonce || ciphertext`, or the plaintext. */
  function StoredChunk(c: Crypto, a: WrapArgs, i: nat, chunk: Bytes): Bytes {
    match a.cek
    case None => chunk
    case Some(key) =>
      a.nonce(i) + c.seal(key, a.nonce(i), ChunkAad(c, c.publicOf(a.secret), a.profile, a.startedAt), chunk)
  }

  function StoredChunks(c: Crypto, a: WrapArgs, pieces: seq<Bytes>): (r: seq<Bytes>)
    ensures |r| == |pieces| && forall i :: 0 <= i < |pieces| ==> r[i] == StoredChunk(c, a, i, pieces[i])
  {
    seq(|pieces|, i requires 0 <= i < |pieces| => StoredChunk(c, a, i, pieces[i]))
  }

  function SegmentFor(c: Crypto, a: WrapArgs, stored: seq<Bytes>, i: nat): Segment
    requires i < |stored|
  {
    Segment(ChunkName(U32(i)), Hex(c.hash(stored[i])), a.startTime(i), a.duration,
            Hex(Continuity(c, Hashes(c, stored), i + 1)))
  }

  function SegmentsFor(c: Crypto, a: WrapArgs, stored: seq<Bytes>): (r: seq<Segment>)
    ensures |r| == |stored| && forall i :: 0 <= i < |stored| ==> r[i] == SegmentFor(c, a, stored, i)
  {
    seq(|stored|, i requires 0 <= i < |stored| => SegmentFor(c, a, stored, i))
  }

  lemma SegmentForKept(c: Crypto, a: WrapArgs, stored: seq<Bytes>, bytes: Bytes, i: nat)
    requires i < |stored|
    ensures SegmentFor(c, a, stored + [bytes], i) == SegmentFor(c, a, stored, i)
  {
    var hs, hs' := Hashes(c, stored), Hashes(c, stored + [bytes]);
    assert forall k :: 0 <= k < |stored| ==> hs'[k] == c.hash(stored[k]);
    ContinuityPrefix(c, hs', hs, i + 1);
  }

  lemma SegmentsGrow(c: Crypto, a: WrapArgs, stored: seq<Bytes>, bytes: Bytes)
    ensures SegmentsFor(c, a, stored + [bytes])
         == SegmentsFor(c, a, stored) + [SegmentFor(c, a, stored + [bytes], |stored|)]
  {
    forall i | 0 <= i < |stored|
      ensures SegmentsFor(c, a, stored + [bytes])[i] == SegmentsFor(c, a, stored)[i]
    {
      SegmentForKept(c, a, stored, bytes, i);
    }
  }

  lemma StoredChunksGrow(c: Crypto, a: WrapArgs, pieces: seq<Bytes>, chunk: Bytes)
    ensures StoredChunks(c, a, pieces + [chunk]) == StoredChunks(c, a, pieces) + [StoredChunk(c, a, |pieces|, chunk)]
  {
  }

  /** One turn of the loop after a non-empty read: encrypt, push, describe. */
  method WrapOne(c: Crypto, a: WrapArgs, w: ArchiveWriter, chunk: Bytes, segments: seq<Segment>) returns (grown: seq<Segment>)
    requires w.Valid() && w.crypto == c && segments == SegmentsFor(c, a, w.stored)
    modifies w
    ensures w.Valid() && w.dir == old(w.dir).(chunks := w.dir.chunks)
    ensures w.stored == old(w.stored) + [StoredChunk(c, a, |segments|, chunk)]
    ensures grown == SegmentsFor(c, a, w.stored)
  {
    var i := |segments|;
    var stored := StoredChunk(c, a, i, chunk);
    SegmentsGrow(c, a, w.stored, stored);
    var o := w.PushChunk(stored);
    grown := segments + [Segment(ChunkName(o.index), Hex(o.blake3), a.startTime(i), a.duration, Hex(o.continuity))];
  }

  /** `done` has been cut off the payload and what remains starts at `pos`. */
  ghost predicate CutTo(data: Bytes, size: nat, done: seq<Bytes>, pos: nat) {
    pos <= |data| && Pieces(data, size) == done + Pieces(data[pos..], size)
  }

  lemma CutOnce(data: Bytes, size: nat, done: seq<Bytes>, pos: nat, next: nat)
    requires CutTo(data, size, done, pos) && 0 < size && pos < |data| && next == Min(pos + size, |data|)
    ensures CutTo(data, size, done + [data[pos..next]], next)
  {
    SplitFrom(data, size, pos);
    assert done + ([data[pos..next]] + Split(data[next..], size)) == done + [data[pos..next]] + Split(data[next..], size);
  }

  /**
   The streaming loop: read a buffer, encrypt it, push it, record its segment. Whatever the short
   reads, the chunks on disk are those of the simple split.
   */
  method WrapChunks(c: Crypto, a: WrapArgs, r: Reader, w: ArchiveWriter) returns (segments: seq<Segment>)
    requires r.Valid() && r.pos == 0 && w.Valid() && w.stored == [] && w.crypto == c
    modifies r`pos, w
    ensures w.Valid() && w.dir == old(w.dir).(chunks := w.dir.chunks)
    ensures w.stored == StoredChunks(c, a, Pieces(r.data, a.chunkSize))
    ensures segments == SegmentsFor(c, a, w.stored)
  {
    segments := [];
    ghost var done: seq<Bytes> := [];
    assert r.data[0..] == r.data;
    while true
      invariant r.Valid() && w.Valid() && w.dir == old(w.dir).(chunks := w.dir.chunks)
      invariant CutTo(r.data, a.chunkSize, done, r.pos)
      invariant w.stored == StoredChunks(c, a, done)
      invariant segments == SegmentsFor(c, a, w.stored)
      decreases |r.data| - r.pos
    {
      ghost var from := r.pos;
      var chunk := ReadExactOrEof(r, a.chunkSize);
      if chunk == "" { break; }
      CutOnce(r.data, a.chunkSize, done, from, r.pos);
      StoredChunksGrow(c, a, done, chunk);
      segments := WrapOne(c, a, w, chunk, segments);
      done := done + [chunk];
    }
    assert done + [] == done;
  }

  // ── Manifest ───────────────────────────────────────────────────────────────

  function Unsigned(t: Tools, a: WrapArgs, link: Option<Link>, segments: seq<Segment>): Manifest {
    var epoch := if link.Some? && link.value.keyEpoch > 0 then Some(link.value.keyEpoch) else None;
    Manifest(FORMAT_VERSION, a.profile,
      DeviceInfo(a.deviceId, "TrustEdgeRefCam", "1.0.0", t.crypto.publicOf(a.secret),
                 Some(t.crypto.agreementOf(a.agreementSecret)), epoch),
      Metadata(a.startedAt, a.endedAt, a.fields), a.chunkSize, a.duration, segments, ["location:unknown"],
      None, if link.Some? then Some(link.value.sequence) else None, if link.Some? then link.value.prev else None, None)
  }

  /** Own key first, then each listed recipient not seen before. */
  function RecipientKeys(acc: seq<Bytes>, more: seq<Bytes>): (r: seq<Bytes>)
    ensures acc <= r && (forall k :: k in more ==> k in r) && (forall k :: k in r ==> k in acc || k in more)
    ensures Unrepeated(acc) ==> Unrepeated(r)
    decreases |more|
  {
    if more == [] then acc
    else if more[0] in acc then RecipientKeys(acc, more[1..])
    else
      var r := RecipientKeys(acc + [more[0]], more[1..]);
      assert r[|acc|] == (acc + [more[0]])[|acc|] == more[0] && more == [more[0]] + more[1..];
      r
  }

  /** `cek_wrap_info`. */
  function CekWrapInfo(publicKey: Bytes, version: Bytes): Bytes { "sealedge/cek-wrap/v1" + publicKey + version }

  function SealedFor(t: Tools, a: WrapArgs, key: Key32, info: Bytes, digest: Bytes, pub: Bytes, i: nat): Option<Recipient> {
    match t.recipientId(pub)
    case None => None
    case Some(id) =>
      var (enc, wrapped) := t.crypto.hpkeSeal(a.ephemeral(i), pub, info, digest, key);
      Some(Recipient(id, pub, enc, wrapped))
  }

  /** The CEK wrapped to each key in order; one malformed key fails the wrap. */
  function SealedForAll(t: Tools, a: WrapArgs, key: Key32, info: Bytes, digest: Bytes, pubs: seq<Bytes>): (r: Option<seq<Recipient>>)
    ensures r.Some? ==> |r.value| == |pubs|
    ensures r.Some? ==> forall i :: 0 <= i < |pubs| ==> SealedFor(t, a, key, info, digest, pubs[i], i) == Some(r.value[i])
    decreases |pubs|
  {
    if pubs == [] then Some([]) else
    var last := |pubs| - 1;
    match (SealedForAll(t, a, key, info, digest, pubs[..last]), SealedFor(t, a, key, info, digest, pubs[last], last))
    case (Some(rs), Some(one)) => Some(rs + [one])
    case _ => None
  }

  function Encrypted(t: Tools, a: WrapArgs, pre: Manifest): Option<Manifest> {
    match a.cek
    case None => if a.recipients == [] then Some(pre) else None
    case Some(key) =>
      var digest := t.crypto.hash(ManifestBytes(pre));
      var pubs := RecipientKeys([t.crypto.agreementOf(a.agreementSecret)], a.recipients);
      match SealedForAll(t, a, key, CekWrapInfo(pre.device.publicKey, pre.version), digest, pubs)
      case None => None
      case Some(rs) => Some(pre.(encryption := Some(Encryption("XChaCha20Poly1305",
          "DHKEM(X25519,HKDF-SHA256)", "HKDF-SHA256", "ChaCha20Poly1305", rs))))
  }

  function Signed(c: Crypto, a: WrapArgs, m: Manifest): Manifest {
    m.(signature := Some(c.sign(a.secret, ManifestBytes(m))))
  }

  /** The finished manifest of a wrap, if the key wrapping succeeds. */
  function FinalManifest(t: Tools, a: WrapArgs, link: Option<Link>, stored: seq<Bytes>): Option<Manifest> {
    match Encrypted(t, a, Unsigned(t, a, link, SegmentsFor(t.crypto, a, stored)))
    case None => None
    case Some(m) => Some(Signed(t.crypto, a, m))
  }

  /** What `seal wrap` leaves on disk, on success. */
  function Wrapped(t: Tools, a: WrapArgs, link: Option<Link>, payload: Bytes, existing: Dir): Option<(Manifest, Dir)> {
    if a.chunkSize > MAX_CHUNK_SIZE_BYTES || payload == "" then None else
    var stored := StoredChunks(t.crypto, a, Pieces(payload, a.chunkSize));
    match FinalManifest(t, a, link, stored)
    case None => None
    case Some(m) =>
      if |m.segments| != U32(|stored|) || |t.encode(m)| > MANIFEST_MAX_BYTES then None
      else Some((m, Dir(Some(t.encode(m)), m.signature, Written(existing.chunks, stored))))
  }

  /** The directory a wrap leaves that failed after the chunks were written. */
  function ChunksOnly(t: Tools, a: WrapArgs, payload: Bytes, existing: Dir): Dir {
    existing.(chunks := Written(existing.chunks, StoredChunks(t.crypto, a, Pieces(payload, a.chunkSize))))
  }

  /** Refused before anything is written. */
  predicate RefusedEarly(a: WrapArgs, payload: Bytes) { a.chunkSize > MAX_CHUNK_SIZE_BYTES || payload == "" }

  /**
   `seal wrap` on its output directory. `resolved` says whether the chronicle position could be
   resolved, which happens only after the chunks have been written.
   */
  method WrapArchive(t: Tools, a: WrapArgs, resolved: bool, link: Option<Link>, payload: Bytes, existing: Dir)
    returns (r: Option<(Manifest, Dir)>, left: Dir)
    ensures r == if resolved then Wrapped(t, a, link, payload, existing) else None
    ensures left == if r.Some? then r.value.1
                    else if RefusedEarly(a, payload) then existing
                    else ChunksOnly(t, a, payload, existing)
    ensures r.None? && (a.chunkSize > 256 * 1024 * 1024 || payload == "") ==> left == existing
  {
    if a.chunkSize > MAX_CHUNK_SIZE_BYTES || payload == "" { return None, existing; }
    var reader := new Reader(payload);
    var writer := new ArchiveWriter(t.crypto, existing);
    var segments := WrapChunks(t.crypto, a, reader, writer);
    if !resolved { return None, writer.dir; }
    var sealed := Encrypted(t, a, Unsigned(t, a, link, segments));
    if sealed.None? { return None, writer.dir; }
    var m := Signed(t.crypto, a, sealed.value);
    var ok := writer.Finalize(t, m, m.signature.value);
    return if ok then Some((m, writer.dir)) else None, writer.dir;
  }

  // ── Unwrap ─────────────────────────────────────────────────────────────────

  datatype Content = Plain | Keyed(cek: Bytes, aad: Bytes)

  function FindRecipient(rs: seq<Recipient>, pub: Bytes): (r: Option<Recipient>)
    ensures r.Some? ==> r.value in rs && r.value.pub == pub
    ensures r.None? ==> forall e :: e in rs ==> e.pub != pub
  {
    if rs == [] then None else if rs[0].pub == pub then Some(rs[0]) else FindRecipient(rs[1..], pub)
  }

  /** How the chunks of `m` are read by the holder of `secret`; `None` if they cannot be. */
  function ContentAccess(t: Tools, m: Manifest, secret: Bytes): Option<Content> {
    match m.encryption
    case None => Some(Plain)
    case Some(e) =>
      match FindRecipient(e.recipients, t.crypto.agreementOf(secret))
      case None => None
      case Some(entry) =>
        var digest := t.crypto.hash(ManifestBytes(m.(encryption := None)));
        match t.crypto.hpkeOpen(secret, entry.enc, CekWrapInfo(m.device.publicKey, m.version), digest, entry.wrappedCek)
        case None => None
        case Some(cek) =>
          if |cek| != 32 then None
          else Some(Keyed(cek, ChunkAad(t.crypto, m.device.publicKey, m.profile, m.metadata.startedAt)))
  }

  function RecoverChunk(c: Crypto, access: Content, stored: Bytes): Option<Bytes> {
    match access
    case Plain => Some(stored)
    case Keyed(cek, aad) => if |stored| < 24 then None else c.open(cek, stored[..24], aad, stored[24..])
  }

  /** The first `n` chunk files, recovered and concatenated. */
  function Recover(c: Crypto, access: Content, chunks: map<Bytes, Bytes>, n: nat): Option<Bytes> {
    if n == 0 then Some("") else
    match Recover(c, access, chunks, n - 1)
    case None => None
    case Some(before) =>
      match ReadCapped(if ChunkName(n - 1) in chunks then Some(chunks[ChunkName(n - 1)]) else None, MAX_STORED_CHUNK_BYTES)
      case None => None
      case Some(stored) =>
        match RecoverChunk(c, access, stored)
        case None => None
        case Some(p) => Some(before + p)
  }

  /** The checks made before any content is touched. */
  predicate Trusted(t: Tools, d: Dir, signer: Option<Bytes>) {
    match ReadManifest(t, d)
    case None => false
    case Some(m) =>
      && m.version == FORMAT_VERSION
      && (signer.Some? ==> signer.value == m.device.publicKey)
      && m.signature.Some?
      && t.crypto.verifies(m.device.publicKey, ManifestBytes(m), m.signature.value)
      && ArchiveOk(t, d)
  }

  /** What the chunks of an archive come to for the holder of `secret`. */
  function Recovered(t: Tools, d: Dir, secret: Bytes): Option<Bytes> {
    match ReadManifest(t, d)
    case None => None
    case Some(m) =>
      match ContentAccess(t, m, secret)
      case None => None
      case Some(access) => Recover(t.crypto, access, d.chunks, |m.segments|)
  }

  /** What `unwrap` answers. */
  function Unwrapped(t: Tools, d: Dir, secret: Bytes, signer: Option<Bytes>): Option<Bytes> {
    if Trusted(t, d, signer) then Recovered(t, d, secret) else None
  }

  /** `seal unwrap`: all chunks recovered, or nothing. */
  method Unwrap(t: Tools, d: Dir, secret: Bytes, signer: Option<Bytes>) returns (out: Option<Bytes>)
    ensures out == Unwrapped(t, d, secret, signer)
  {
    var read := ReadManifest(t, d);
    if read.None? { return None; }
    var m := read.value;
    if m.version != FORMAT_VERSION { return None; }
    if signer.Some? && signer.value != m.device.publicKey { return None; }
    if m.signature.None? || !t.crypto.verifies(m.device.publicKey, ManifestBytes(m), m.signature.value) { return None; }
    var valid := ValidateArchive(t, d);
    if !valid { return None; }
    var access := ContentAccess(t, m, secret);
    if access.None? { return None; }
    var payload := "";
    for i := 0 to |m.segments|
      invariant Recover(t.crypto, access.value, d.chunks, i) == Some(payload)
    {
      ghost var next := Recover(t.crypto, access.value, d.chunks, i + 1);
      var file := if ChunkName(i) in d.chunks then Some(d.chunks[ChunkName(i)]) else None;
      var stored := ReadCapped(file, MAX_STORED_CHUNK_BYTES);
      var plain := if stored.Some? then RecoverChunk(t.crypto, access.value, stored.value) else None;
      if plain.None? {
        assert next.None?;
        RecoverStuck(t.crypto, access.value, d.chunks, i + 1, |m.segments|);
        return None;
      }
      payload := payload + plain.value;
    }
    return Some(payload);
  }

  lemma {:induction false} RecoverStuck(c: Crypto, access: Content, chunks: map<Bytes, Bytes>, k: nat, n: nat)
    requires k <= n && Recover(c, access, chunks, k).None?
    ensures Recover(c, access, chunks, n).None?
    decreases n
  {
    if k < n { RecoverStuck(c, access, chunks, k, n - 1); }
  }
}
