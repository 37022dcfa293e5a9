/**
 The command-line record stream: a header and a run of encrypted records, numbered from 1, written
 while the input is read and checked one by one when it is decrypted.
 */
module RecordStream {
  import opened Text
  import opened Primitives
  import opened Streams
  import opened Format

  const MAGIC: Bytes := "SEAL"
  const STREAM_VERSION: char := 2 as char
  const MANIFEST_DOMAIN_SEP: Bytes := "sealedge.manifest.v1"

  datatype Manifest = Manifest(v: nat, tsMs: nat, seqNo: nat, headerHash: Bytes, ptHash: Bytes, keyId: Bytes,
                               aiUsed: bool, modelIds: seq<Bytes>, dataType: Bytes, chunkLen: nat)

  datatype Record = Record(seqNo: nat, nonce: Bytes, sm: SignedManifest, ct: Bytes)

  datatype StreamHeader = StreamHeader(v: char, header: Bytes, headerHash: Bytes)

  /** A whole stream file, as far as it holds complete records. */
  datatype Stream = Stream(magic: Bytes, version: char, header: StreamHeader, records: seq<Record>)

  /** The `bincode` encoding of a manifest. */
  datatype Codec = Codec(put: Manifest -> Bytes, get: Bytes -> Option<Manifest>)

  ghost predicate CodecLaws(b: Codec) {
    forall m: Manifest :: b.get(b.put(m)) == Some(m)
  }

  function RecordNonce(prefix: Bytes, seqNo: nat): Bytes { prefix + BigEndian(seqNo, 8) }

  function RecordAad(c: Crypto, headerHash: Bytes, seqNo: nat, nonce: Bytes, manifest: Bytes, chunkLen: nat): Bytes {
    BuildAad(headerHash, seqNo, nonce, c.hash(manifest), chunkLen)
  }

  // ── Writing ────────────────────────────────────────────────────────────────

  /** The key, the signing key, the header and what the manifests say besides. */
  datatype Writer = Writer(key: Bytes, sk: Bytes, header: FileHeader, clock: nat -> nat, dataType: Bytes)

  function HeaderHash(c: Crypto, w: Writer): Bytes { c.hash(HeaderBytes(w.header)) }

  function HeaderFor(c: Crypto, w: Writer): StreamHeader {
    StreamHeader(STREAM_VERSION, HeaderBytes(w.header), HeaderHash(c, w))
  }

  function ManifestFor(c: Crypto, w: Writer, seqNo: nat, pt: Bytes): Manifest {
    Manifest(1, w.clock(seqNo), seqNo, HeaderHash(c, w), c.hash(pt), w.header.keyId, false, [], w.dataType, U32(|pt|))
  }

  /** One record, for the piece of input that came with this number. */
  function RecordFor(c: Crypto, b: Codec, w: Writer, seqNo: nat, pt: Bytes): Record {
    var m := b.put(ManifestFor(c, w, seqNo, pt));
    var nonce := RecordNonce(w.header.noncePrefix, seqNo);
    Record(seqNo, nonce,
           SignedManifest(m, c.sign(w.sk, MANIFEST_DOMAIN_SEP + m), c.publicOf(w.sk)),
           c.seal(w.key, nonce, RecordAad(c, HeaderHash(c, w), seqNo, nonce, m, U32(|pt|)), pt))
  }

  /** The writer opens each record it made before keeping it. */
  predicate SelfCheck(c: Crypto, b: Codec, w: Writer, rec: Record, pt: Bytes) {
    match b.get(rec.sm.manifest)
    case None => false
    case Some(m) =>
      && c.verifies(rec.sm.pubkey, MANIFEST_DOMAIN_SEP + rec.sm.manifest, rec.sm.sig)
      && match c.open(w.key, rec.nonce,
                      RecordAad(c, HeaderHash(c, w), rec.seqNo, rec.nonce, rec.sm.manifest, m.chunkLen), rec.ct)
         case None => false
         case Some(back) => c.hash(back) == c.hash(pt)
  }

  /** Record `i` carries piece `i` under number `i` + 1. */
  function RecordsFor(c: Crypto, b: Codec, w: Writer, pieces: seq<Bytes>): (rs: seq<Record>)
    ensures |rs| == |pieces|
    ensures forall i :: 0 <= i < |pieces| ==> rs[i] == RecordFor(c, b, w, i + 1, pieces[i])
  {
    seq(|pieces|, i requires 0 <= i < |pieces| => RecordFor(c, b, w, i + 1, pieces[i]))
  }

  function StreamFor(c: Crypto, b: Codec, w: Writer, pieces: seq<Bytes>): Stream {
    Stream(MAGIC, STREAM_VERSION, HeaderFor(c, w), RecordsFor(c, b, w, pieces))
  }

  /** What a run of reads into one buffer of `size` bytes can return. */
  ghost predicate Pieces(size: nat, pieces: seq<Bytes>) {
    forall i :: 0 <= i < |pieces| ==> 0 < |pieces[i]| <= size
  }

  lemma SelfCheckHolds(c: Crypto, b: Codec, w: Writer, seqNo: nat, pt: Bytes)
    requires SignatureLaws(c) && AeadLaws(c) && CodecLaws(b)
    ensures SelfCheck(c, b, w, RecordFor(c, b, w, seqNo, pt), pt)
  {
    hide RecordAad, RecordNonce, HeaderHash;
    var m := ManifestFor(c, w, seqNo, pt);
    assert b.get(b.put(m)) == Some(m);
  }

  /**
   The encrypt loop. Every read may be short, so the pieces are any split of the input into parts of
   at most the chunk size; each becomes the next record.
   */
  method Encrypt(c: Crypto, b: Codec, w: Writer, input: Reader)
    returns (r: Option<Stream>, ghost pieces: seq<Bytes>)
    requires SignatureLaws(c) && AeadLaws(c) && CodecLaws(b)
    requires input.Valid() && input.pos == 0
    modifies input`pos
    ensures r.None? <==> w.header.chunkSize == 0 || w.header.chunkSize >= U32_LIMIT || |pieces| >= U64_LIMIT
    ensures r.Some? ==>
              && r.value == StreamFor(c, b, w, pieces)
              && Pieces(w.header.chunkSize, pieces) && Concat(pieces) == input.data
  {
    hide SignatureLaws, AeadLaws, CodecLaws, SelfCheck, RecordFor, Concat;
    pieces := [];
    if w.header.chunkSize == 0 || w.header.chunkSize >= U32_LIMIT { return None, pieces; }
    var buf := new char[w.header.chunkSize];
    var records: seq<Record> := [];
    var seqNo := 0;
    assert Concat(pieces) == input.data[..0] by { ConcatNone(); }
    while true
      invariant input.Valid() && buf.Length == w.header.chunkSize && fresh(buf)
      invariant records == RecordsFor(c, b, w, pieces) && seqNo == |pieces| < U64_LIMIT
      invariant Pieces(w.header.chunkSize, pieces) && Concat(pieces) == input.data[..input.pos]
      decreases |input.data| - input.pos
    {
      ghost var before := input.pos;
      var n := input.Read(buf, 0);
      if n == 0 { break; }
      var pt := buf[..n];
      ConcatAppend(pieces, pt);
      pieces := pieces + [pt];
      assert input.data[..input.pos] == input.data[..before] + input.data[before..input.pos];
      if seqNo + 1 >= U64_LIMIT { return None, pieces; }
      seqNo := seqNo + 1;
      var rec := RecordFor(c, b, w, seqNo, pt);
      SelfCheckHolds(c, b, w, seqNo, pt);
      if !SelfCheck(c, b, w, rec, pt) { return None, pieces; }
      records := records + [rec];
    }
    assert input.data[..input.pos] == input.data;
    r := Some(Stream(MAGIC, STREAM_VERSION, HeaderFor(c, w), records));
  }

  lemma ConcatNone()
    ensures Concat([]) == ""
  {
  }

  // ── Reading ────────────────────────────────────────────────────────────────

  /** The checks before the first record; they yield the parsed header. */
  function ReadHeader(c: Crypto, s: Stream): Option<FileHeader> {
    if s.magic != MAGIC || s.version != STREAM_VERSION then None else
      match ParseHeader(s.header.header)
      case None => None
      case Some(h) =>
        if c.hash(s.header.header) == s.header.headerHash && 0 < h.chunkSize <= MAX_CHUNK_SIZE then Some(h) else None
  }

  /** The checks that only look at the record itself. */
  predicate EnvelopeInvariants(h: FileHeader, i: nat, rec: Record) {
    && i + 1 <= MAX_RECORDS_PER_STREAM
    && |rec.ct| <= h.chunkSize + TAG_LEN
    && rec.nonce == RecordNonce(h.noncePrefix, rec.seqNo)
    && rec.seqNo == i + 1
  }

  /** The checks on the manifest against the record and the header. */
  predicate ManifestInvariants(h: FileHeader, headerHash: Bytes, rec: Record, m: Manifest) {
    && m.headerHash == headerHash && m.keyId == h.keyId && m.seqNo == rec.seqNo
    && 0 < m.chunkLen <= h.chunkSize
  }

  /** One turn of the record loop with `done` bytes written so far: the plaintext, if the record is accepted. */
  function AcceptRecord(c: Crypto, b: Codec, key: Bytes, h: FileHeader, headerHash: Bytes, i: nat, rec: Record,
                        done: nat)
    : (r: Option<Bytes>)
    ensures r.Some? ==> rec.seqNo == i + 1 && rec.nonce == RecordNonce(h.noncePrefix, i + 1)
    ensures r.Some? ==> i + 1 <= MAX_RECORDS_PER_STREAM && 0 < |r.value| <= h.chunkSize
    ensures r.Some? ==> done + |r.value| <= MAX_STREAM_SIZE_BYTES
  {
    if !EnvelopeInvariants(h, i, rec) then None
    else if !c.verifies(rec.sm.pubkey, MANIFEST_DOMAIN_SEP + rec.sm.manifest, rec.sm.sig) then None
    else
      match b.get(rec.sm.manifest)
      case None => None
      case Some(m) =>
        if !ManifestInvariants(h, headerHash, rec, m) then None else
          match c.open(key, rec.nonce,
                       RecordAad(c, headerHash, rec.seqNo, rec.nonce, rec.sm.manifest, m.chunkLen), rec.ct)
          case None => None
          case Some(pt) =>
            if |pt| == m.chunkLen && c.hash(pt) == m.ptHash && done + |pt| <= MAX_STREAM_SIZE_BYTES
            then Some(pt) else None
  }

  /** A record is accepted, with this plaintext, exactly when all of the loop's checks pass. */
  lemma AcceptedExactly(c: Crypto, b: Codec, key: Bytes, h: FileHeader, headerHash: Bytes, i: nat, rec: Record, done: nat,
                        pt: Bytes)
    ensures AcceptRecord(c, b, key, h, headerHash, i, rec, done) == Some(pt) <==>
              && i < MAX_RECORDS_PER_STREAM && rec.seqNo == i + 1 && |rec.ct| <= h.chunkSize + TAG_LEN
              && rec.nonce == RecordNonce(h.noncePrefix, i + 1)
              && c.verifies(rec.sm.pubkey, MANIFEST_DOMAIN_SEP + rec.sm.manifest, rec.sm.sig)
              && b.get(rec.sm.manifest).Some?
              && var m := b.get(rec.sm.manifest).value;
                 && m.headerHash == headerHash && m.keyId == h.keyId && m.seqNo == i + 1
                 && m.chunkLen == |pt| && 0 < |pt| <= h.chunkSize && m.ptHash == c.hash(pt)
                 && c.open(key, rec.nonce, RecordAad(c, headerHash, i + 1, rec.nonce, rec.sm.manifest, |pt|), rec.ct) == Some(pt)
                 && done + |pt| <= MAX_STREAM_SIZE_BYTES
  {
    hide RecordAad, RecordNonce;
  }

  /** The pieces written by the first `n` turns, if they all accept. */
  function ReadTo(c: Crypto, b: Codec, key: Bytes, h: FileHeader, headerHash: Bytes, records: seq<Record>, n: nat)
    : Option<seq<Bytes>>
    requires n <= |records|
  {
    if n == 0 then Some([]) else
      match ReadTo(c, b, key, h, headerHash, records, n - 1)
      case None => None
      case Some(before) =>
        match AcceptRecord(c, b, key, h, headerHash, n - 1, records[n - 1], |Concat(before)|)
        case None => None
        case Some(pt) => Some(before + [pt])
  }

  /** What decryption yields when it succeeds. */
  function Decrypted(c: Crypto, b: Codec, key: Bytes, s: Stream): Option<Bytes> {
    match ReadHeader(c, s)
    case None => None
    case Some(h) =>
      match ReadTo(c, b, key, h, s.header.headerHash, s.records, |s.records|)
      case None => None
      case Some(pieces) => Some(Concat(pieces))
  }

  lemma {:induction false} ReadStaysFailed(c: Crypto, b: Codec, key: Bytes, h: FileHeader, headerHash: Bytes,
                                           records: seq<Record>, n: nat, m: nat)
    requires n <= m <= |records| && ReadTo(c, b, key, h, headerHash, records, n).None?
    ensures ReadTo(c, b, key, h, headerHash, records, m).None?
    decreases m
  {
    hide AcceptRecord;
    if n < m { ReadStaysFailed(c, b, key, h, headerHash, records, n, m - 1); }
  }

  /**
   `decrypt_envelope`. `out` is what has been written when it stops: all of it on success, and on
   failure the plaintext of the records before the one it refused.
   */
  method Decrypt(c: Crypto, b: Codec, key: Bytes, s: Stream) returns (ok: bool, out: Bytes)
    ensures ok <==> Decrypted(c, b, key, s).Some?
    ensures ok ==> Some(out) == Decrypted(c, b, key, s)
    ensures !ok && ReadHeader(c, s).Some? ==>
              exists k | 0 <= k < |s.records| :: Decrypted(c, b, key, s.(records := s.records[..k])) == Some(out)
  {
    hide AcceptRecord, ReadHeader, Concat;
    out := "";
    var header := ReadHeader(c, s);
    if header.None? { return false, out; }
    var h, headerHash := header.value, s.header.headerHash;
    ghost var pieces: seq<Bytes> := [];
    assert Concat(pieces) == "" by { ConcatNone(); }
    var size, i := 0, 0;
    while i < |s.records|
      invariant i <= |s.records| && ReadTo(c, b, key, h, headerHash, s.records, i) == Some(pieces)
      invariant out == Concat(pieces) && size == |out|
    {
      var pt := AcceptRecord(c, b, key, h, headerHash, i, s.records[i], size);
      if pt.None? {
        ReadStaysFailed(c, b, key, h, headerHash, s.records, i + 1, |s.records|);
        ReadPrefix(c, b, key, h, headerHash, s.records, i);
        HeaderOnly(c, s, s.records[..i]);
        return false, out;
      }
      ConcatAppend(pieces, pt.value);
      pieces := pieces + [pt.value];
      out := out + pt.value;
      size := size + |pt.value|;
      i := i + 1;
    }
    ok := true;
  }

  lemma HeaderOnly(c: Crypto, s: Stream, records: seq<Record>)
    ensures ReadHeader(c, s.(records := records)) == ReadHeader(c, s)
  {
  }

  /** The first turns do not depend on the records that come later. */
  lemma {:induction false} ReadLocal(c: Crypto, b: Codec, key: Bytes, h: FileHeader, headerHash: Bytes,
                                     records: seq<Record>, k: nat, n: nat)
    requires n <= k <= |records|
    ensures ReadTo(c, b, key, h, headerHash, records[..k], n) == ReadTo(c, b, key, h, headerHash, records, n)
    decreases n
  {
    hide AcceptRecord;
    if n > 0 { ReadLocal(c, b, key, h, headerHash, records, k, n - 1); }
  }

  lemma ReadPrefix(c: Crypto, b: Codec, key: Bytes, h: FileHeader, headerHash: Bytes, records: seq<Record>, k: nat)
    requires k <= |records|
    ensures ReadTo(c, b, key, h, headerHash, records[..k], k) == ReadTo(c, b, key, h, headerHash, records, k)
  {
    ReadLocal(c, b, key, h, headerHash, records, k, k);
  }

  // ── What an accepted run guarantees ────────────────────────────────────────

  lemma RecordNoncesDistinct(prefix: Bytes, i: nat, j: nat)
    requires i < U64_LIMIT && j < U64_LIMIT && i != j
    ensures RecordNonce(prefix, i) != RecordNonce(prefix, j)
  {
    hide BigEndian;
    Widths();
    if RecordNonce(prefix, i) == RecordNonce(prefix, j) {
      assert RecordNonce(prefix, i)[|prefix|..] == BigEndian(i, 8);
      assert RecordNonce(prefix, j)[|prefix|..] == BigEndian(j, 8);
      BigEndianInjective(i, j, 8);
    }
  }

  /** At every turn of an accepted run: numbering, count, chunk sizes and the bounded total. */
  lemma {:induction false} RunSoFar(c: Crypto, b: Codec, key: Bytes, h: FileHeader, headerHash: Bytes,
                                    records: seq<Record>, n: nat)
    requires n <= |records| && ReadTo(c, b, key, h, headerHash, records, n).Some?
    ensures var pieces := ReadTo(c, b, key, h, headerHash, records, n).value;
            && |pieces| == n <= MAX_RECORDS_PER_STREAM
            && Pieces(h.chunkSize, pieces)
            && |Concat(pieces)| <= MAX_STREAM_SIZE_BYTES
    ensures forall i :: 0 <= i < n ==>
              records[i].seqNo == i + 1 && records[i].nonce == RecordNonce(h.noncePrefix, i + 1)
    decreases n
  {
    hide AcceptRecord, RecordNonce;
    if n > 0 {
      RunSoFar(c, b, key, h, headerHash, records, n - 1);
      var before := ReadTo(c, b, key, h, headerHash, records, n - 1).value;
      var pt := AcceptRecord(c, b, key, h, headerHash, n - 1, records[n - 1], |Concat(before)|);
      ConcatAppend(before, pt.value);
    }
  }

  /**
   A stream that decrypts: record i carries number i + 1, no nonce repeats, and the output is the
   concatenation of at most a million pieces, together at most 10 GiB, so no counter overflows.
   */
  lemma AcceptedRun(c: Crypto, b: Codec, key: Bytes, s: Stream)
    requires Decrypted(c, b, key, s).Some?
    ensures |s.records| <= MAX_RECORDS_PER_STREAM && |Decrypted(c, b, key, s).value| <= MAX_STREAM_SIZE_BYTES
    ensures forall i :: 0 <= i < |s.records| ==> s.records[i].seqNo == i + 1
    ensures forall i, j :: 0 <= i < j < |s.records| ==> s.records[i].nonce != s.records[j].nonce
  {
    hide AcceptRecord, ReadHeader, RecordNonce;
    var h := ReadHeader(c, s).value;
    RunSoFar(c, b, key, h, s.header.headerHash, s.records, |s.records|);
    forall i, j | 0 <= i < j < |s.records| ensures s.records[i].nonce != s.records[j].nonce {
      RecordNoncesDistinct(h.noncePrefix, i + 1, j + 1);
    }
  }

  /** Cutting an accepted stream after any record leaves an accepted stream with a prefix of the output. */
  lemma CutStream(c: Crypto, b: Codec, key: Bytes, s: Stream, k: nat)
    requires Decrypted(c, b, key, s).Some? && k <= |s.records|
    ensures var cut := Decrypted(c, b, key, s.(records := s.records[..k]));
            cut.Some? && cut.value <= Decrypted(c, b, key, s).value
  {
    hide AcceptRecord, ReadHeader, Concat;
    var h := ReadHeader(c, s).value;
    HeaderOnly(c, s, s.records[..k]);
    ReadPrefix(c, b, key, h, s.header.headerHash, s.records, k);
    ReadGrows(c, b, key, h, s.header.headerHash, s.records, k, |s.records|);
  }

  lemma {:induction false} ReadGrows(c: Crypto, b: Codec, key: Bytes, h: FileHeader, headerHash: Bytes,
                                     records: seq<Record>, n: nat, m: nat)
    requires n <= m <= |records| && ReadTo(c, b, key, h, headerHash, records, m).Some?
    ensures ReadTo(c, b, key, h, headerHash, records, n).Some?
    ensures Concat(ReadTo(c, b, key, h, headerHash, records, n).value)
         <= Concat(ReadTo(c, b, key, h, headerHash, records, m).value)
    decreases m
  {
    hide AcceptRecord, Concat;
    if n < m {
      ReadGrows(c, b, key, h, headerHash, records, n, m - 1);
      var before := ReadTo(c, b, key, h, headerHash, records, m - 1).value;
      var pt := AcceptRecord(c, b, key, h, headerHash, m - 1, records[m - 1], |Concat(before)|);
      ConcatAppend(before, pt.value);
    }
  }

  // ── Round trip ─────────────────────────────────────────────────────────────

  /** A written record is accepted at its place exactly when the reader's limits allow it. */
  lemma WrittenRecord(c: Crypto, b: Codec, w: Writer, i: nat, pt: Bytes, done: nat)
    requires SignatureLaws(c) && AeadLaws(c) && CodecLaws(b)
    requires 0 < |pt| <= w.header.chunkSize < U32_LIMIT
    ensures AcceptRecord(c, b, w.key, w.header, HeaderHash(c, w), i, RecordFor(c, b, w, i + 1, pt), done) ==
            if i + 1 <= MAX_RECORDS_PER_STREAM && done + |pt| <= MAX_STREAM_SIZE_BYTES then Some(pt) else None
  {
    hide RecordAad, RecordNonce, HeaderHash;
    var m := ManifestFor(c, w, i + 1, pt);
    assert b.get(b.put(m)) == Some(m);
  }

  lemma ReadNext(c: Crypto, b: Codec, key: Bytes, h: FileHeader, headerHash: Bytes, records: seq<Record>, n: nat)
    requires 0 < n <= |records|
    ensures var before := ReadTo(c, b, key, h, headerHash, records, n - 1);
            ReadTo(c, b, key, h, headerHash, records, n) ==
              if before.None? then None else
              var pt := AcceptRecord(c, b, key, h, headerHash, n - 1, records[n - 1], |Concat(before.value)|);
              if pt.None? then None else Some(before.value + [pt.value])
  {
    hide AcceptRecord, Concat;
  }

  /** The pieces so far, if they are within the reader's limits. */
  function WithinLimits(pieces: seq<Bytes>): Option<seq<Bytes>> {
    if |pieces| <= MAX_RECORDS_PER_STREAM && |Concat(pieces)| <= MAX_STREAM_SIZE_BYTES then Some(pieces) else None
  }

  lemma ReadsBackOne(c: Crypto, b: Codec, w: Writer, records: seq<Record>, before: seq<Bytes>, pt: Bytes)
    requires SignatureLaws(c) && AeadLaws(c) && CodecLaws(b) && 0 < |pt| <= w.header.chunkSize < U32_LIMIT
    requires |before| < |records| && records[|before|] == RecordFor(c, b, w, |before| + 1, pt)
    requires ReadTo(c, b, w.key, w.header, HeaderHash(c, w), records, |before|) == WithinLimits(before)
    ensures ReadTo(c, b, w.key, w.header, HeaderHash(c, w), records, |before| + 1) == WithinLimits(before + [pt])
  {
    hide AcceptRecord, RecordFor, RecordNonce, HeaderHash, SignatureLaws, AeadLaws, CodecLaws, Concat, ReadTo, WithinLimits;
    ReadNext(c, b, w.key, w.header, HeaderHash(c, w), records, |before| + 1);
    LimitsGrow(before, pt);
    WrittenRecord(c, b, w, |before|, pt, |Concat(before)|);
  }

  lemma LimitsGrow(before: seq<Bytes>, pt: Bytes)
    ensures WithinLimits(before).Some? ==> WithinLimits(before).value == before
    ensures WithinLimits(before + [pt]) ==
            if WithinLimits(before).Some? && |before| + 1 <= MAX_RECORDS_PER_STREAM && |Concat(before)| + |pt| <= MAX_STREAM_SIZE_BYTES
            then Some(before + [pt]) else None
  {
    hide Concat;
    ConcatAppend(before, pt);
  }

  lemma {:induction false} ReadsBack(c: Crypto, b: Codec, w: Writer, pieces: seq<Bytes>, n: nat)
    requires SignatureLaws(c) && AeadLaws(c) && CodecLaws(b)
    requires Pieces(w.header.chunkSize, pieces) && w.header.chunkSize < U32_LIMIT && n <= |pieces|
    ensures ReadTo(c, b, w.key, w.header, HeaderHash(c, w), RecordsFor(c, b, w, pieces), n) == WithinLimits(pieces[..n])
    decreases n
  {
    hide AcceptRecord, RecordFor, HeaderHash, SignatureLaws, AeadLaws, CodecLaws, RecordsFor;
    if n > 0 {
      hide ReadTo, WithinLimits;
      ReadsBack(c, b, w, pieces, n - 1);
      ReadsBackOne(c, b, w, RecordsFor(c, b, w, pieces), pieces[..n - 1], pieces[n - 1]);
      assert pieces[..n] == pieces[..n - 1] + [pieces[n - 1]];
    } else {
      assert pieces[..0] == [];
    }
  }

  /**
   What was written decrypts to what was read, exactly when the chunk size, the number of records and
   the total are within the reader's limits; otherwise it is refused.
   */
  lemma EncryptThenDecrypt(c: Crypto, b: Codec, w: Writer, pieces: seq<Bytes>)
    requires SignatureLaws(c) && AeadLaws(c) && CodecLaws(b)
    requires HeaderShape(w.header) && w.header.chunkSize > 0 && Pieces(w.header.chunkSize, pieces)
    requires KnownAlgorithms(w.header.aead, w.header.sig, w.header.hash, w.header.kdf)
    ensures Decrypted(c, b, w.key, StreamFor(c, b, w, pieces)) ==
            if && w.header.chunkSize <= MAX_CHUNK_SIZE
               && |pieces| <= MAX_RECORDS_PER_STREAM
               && |Concat(pieces)| <= MAX_STREAM_SIZE_BYTES
            then Some(Concat(pieces)) else None
  {
    hide HeaderBytes, ParseHeader, ReadTo, Concat, RecordsFor, SignatureLaws, AeadLaws, CodecLaws;
    HeaderRoundTrip(w.header);
    ReadsBack(c, b, w, pieces, |pieces|);
    assert pieces[..|pieces|] == pieces;
  }

  // ── Reading and writing, written out ───────────────────────────────────────

  /** The header bytes are of a known kind, are the ones hashed, and ask for a chunk size readers allow. */
  predicate HeaderOk(c: Crypto, s: Stream) {
    var b := s.header.header;
    && s.magic == "SEAL" && s.version as int == 2 && |b| == 66
    && 1 <= b[1] as int <= 3 && 1 <= b[2] as int <= 7 && 1 <= b[3] as int <= 6 && 1 <= b[4] as int <= 4
    && s.header.headerHash == c.hash(b)
    && 0 < BigEndianValue(b[60..64]) <= 128 * 1024 * 1024
  }

  lemma HeaderExactly(c: Crypto, s: Stream)
    ensures ReadHeader(c, s).Some? <==> HeaderOk(c, s)
    ensures HeaderOk(c, s) ==>
              var h, b := ReadHeader(c, s).value, s.header.header;
              h.chunkSize == BigEndianValue(b[60..64]) && h.keyId == b[8..24] && h.noncePrefix == b[56..60] && h.deviceIdHash == b[24..56]
  {
    hide BigEndianValue;
  }

  /** Record `i` of a stream, with `done` bytes before it, gives `pt`: every check of the loop, on the header's bytes. */
  predicate RecordGives(c: Crypto, b: Codec, key: Bytes, s: Stream, i: nat, done: nat, pt: Bytes)
    requires HeaderOk(c, s) && i < |s.records|
  {
    var rec, header := s.records[i], s.header.header;
    var m, size := b.get(rec.sm.manifest), BigEndianValue(header[60..64]);
    && i < 1_000_000 && rec.seqNo == i + 1 && |rec.ct| <= size + 16
    && rec.nonce == header[56..60] + BigEndian(i + 1, 8)
    && c.verifies(rec.sm.pubkey, "sealedge.manifest.v1" + rec.sm.manifest, rec.sm.sig)
    && m.Some? && m.value.headerHash == c.hash(header) && m.value.keyId == header[8..24] && m.value.seqNo == i + 1
    && m.value.chunkLen == |pt| && 0 < |pt| <= size && m.value.ptHash == c.hash(pt)
    && c.open(key, rec.nonce, c.hash(header) + BigEndian(i + 1, 8) + rec.nonce + c.hash(rec.sm.manifest) + BigEndian(|pt|, 4), rec.ct)
       == Some(pt)
    && done + |pt| <= 10 * 1024 * 1024 * 1024
  }

  lemma RecordGivesMeans(c: Crypto, b: Codec, key: Bytes, s: Stream, i: nat, done: nat, pt: Bytes)
    requires HeaderOk(c, s) && i < |s.records|
    ensures ReadHeader(c, s).Some?
    ensures AcceptRecord(c, b, key, ReadHeader(c, s).value, s.header.headerHash, i, s.records[i], done) == Some(pt) <==>
            RecordGives(c, b, key, s, i, done, pt)
  {
    hide BigEndian, BigEndianValue, AcceptRecord, ReadHeader;
    HeaderExactly(c, s);
    AcceptedExactly(c, b, key, ReadHeader(c, s).value, s.header.headerHash, i, s.records[i], done, pt);
  }

  /** The records give `pieces`, one each and in order. */
  predicate StreamGives(c: Crypto, b: Codec, key: Bytes, s: Stream, pieces: seq<Bytes>)
    requires HeaderOk(c, s)
  {
    |pieces| == |s.records| && forall i :: 0 <= i < |pieces| ==> RecordGives(c, b, key, s, i, |Concat(pieces[..i])|, pieces[i])
  }

  lemma {:induction false} ReadGives(c: Crypto, b: Codec, key: Bytes, s: Stream, n: nat)
    requires HeaderOk(c, s) && n <= |s.records| && ReadHeader(c, s).Some?
    requires ReadTo(c, b, key, ReadHeader(c, s).value, s.header.headerHash, s.records, n).Some?
    ensures var pieces := ReadTo(c, b, key, ReadHeader(c, s).value, s.header.headerHash, s.records, n).value;
            |pieces| == n && forall i :: 0 <= i < n ==> RecordGives(c, b, key, s, i, |Concat(pieces[..i])|, pieces[i])
    decreases n
  {
    hide AcceptRecord, ReadHeader, RecordGives, Concat, HeaderOk;
    if n > 0 {
      ReadGives(c, b, key, s, n - 1);
      var before := ReadTo(c, b, key, ReadHeader(c, s).value, s.header.headerHash, s.records, n - 1).value;
      var pieces := ReadTo(c, b, key, ReadHeader(c, s).value, s.header.headerHash, s.records, n).value;
      RecordGivesMeans(c, b, key, s, n - 1, |Concat(before)|, pieces[n - 1]);
      forall i | 0 <= i < n ensures pieces[..i] == before[..i] { }
      assert before[..n - 1] == before;
    }
  }

  lemma {:induction false} ReadTakes(c: Crypto, b: Codec, key: Bytes, s: Stream, pieces: seq<Bytes>, n: nat)
    requires HeaderOk(c, s) && ReadHeader(c, s).Some? && StreamGives(c, b, key, s, pieces) && n <= |pieces|
    ensures ReadTo(c, b, key, ReadHeader(c, s).value, s.header.headerHash, s.records, n) == Some(pieces[..n])
    decreases n
  {
    hide AcceptRecord, ReadHeader, RecordGives, Concat, HeaderOk;
    if n > 0 {
      ReadTakes(c, b, key, s, pieces, n - 1);
      RecordGivesMeans(c, b, key, s, n - 1, |Concat(pieces[..n - 1])|, pieces[n - 1]);
      assert pieces[..n] == pieces[..n - 1] + [pieces[n - 1]];
    }
  }

  /** Decryption in full: a stream gives `out` exactly when its header passes and its records give the pieces of `out`. */
  lemma DecryptedMeans(c: Crypto, b: Codec, key: Bytes, s: Stream, out: Bytes)
    ensures Decrypted(c, b, key, s) == Some(out) <==>
              HeaderOk(c, s) && exists pieces :: StreamGives(c, b, key, s, pieces) && out == Concat(pieces)
  {
    hide ReadHeader, ReadTo, HeaderOk, RecordGives, Concat;
    HeaderExactly(c, s);
    if Decrypted(c, b, key, s) == Some(out) {
      ReadGives(c, b, key, s, |s.records|);
      var pieces := ReadTo(c, b, key, ReadHeader(c, s).value, s.header.headerHash, s.records, |s.records|).value;
      assert StreamGives(c, b, key, s, pieces);
    }
    if HeaderOk(c, s) {
      if pieces :| StreamGives(c, b, key, s, pieces) && out == Concat(pieces) {
        ReadTakes(c, b, key, s, pieces, |pieces|);
        assert pieces[..|pieces|] == pieces;
      }
    }
  }

  /** A record as written: its number in four places, the clock, the hashes, the signature, and a ciphertext of the piece. */
  lemma RecordSays(c: Crypto, b: Codec, w: Writer, pieces: seq<Bytes>, i: nat)
    requires SignatureLaws(c) && AeadLaws(c) && CodecLaws(b) && i < |pieces| && |pieces[i]| < U32_LIMIT
    ensures var s, header := StreamFor(c, b, w, pieces), HeaderBytes(w.header);
            && s.magic == "SEAL" && s.version as int == 2 && |s.records| == |pieces|
            && s.header.v as int == 2 && s.header.header == header && s.header.headerHash == c.hash(header)
    ensures var rec, header := StreamFor(c, b, w, pieces).records[i], HeaderBytes(w.header);
            && rec.seqNo == i + 1 && rec.nonce == w.header.noncePrefix + BigEndian(i + 1, 8)
            && rec.sm.pubkey == c.publicOf(w.sk)
            && c.verifies(c.publicOf(w.sk), "sealedge.manifest.v1" + rec.sm.manifest, rec.sm.sig)
            && b.get(rec.sm.manifest) == Some(Manifest(1, w.clock(i + 1), i + 1, c.hash(header), c.hash(pieces[i]), w.header.keyId,
                                                       false, [], w.dataType, |pieces[i]|))
            && c.open(w.key, rec.nonce, c.hash(header) + BigEndian(i + 1, 8) + rec.nonce + c.hash(rec.sm.manifest)
                                        + BigEndian(|pieces[i]|, 4), rec.ct) == Some(pieces[i])
  {
    hide BigEndian, HeaderBytes;
    var m := ManifestFor(c, w, i + 1, pieces[i]);
    assert b.get(b.put(m)) == Some(m);
  }
}
