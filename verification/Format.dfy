/**
 The fixed-width parts of the chunked containers: the associated data bound to every chunk and the
 stream's file header.
 */
module Format {
  import opened Text

  const NONCE_LEN: nat := 12
  const HEADER_LEN: nat := 66
  const MAX_CHUNK_SIZE: nat := 128 * 1024 * 1024
  const MAX_RECORDS_PER_STREAM: nat := 1_000_000
  const MAX_STREAM_SIZE_BYTES: nat := 10 * 1024 * 1024 * 1024

  /** Serialized manifest bytes with the signature over them and the key that made it. */
  datatype SignedManifest = SignedManifest(manifest: Bytes, sig: Bytes, pubkey: Bytes)

  lemma {:induction false} BigEndianLength(n: nat, width: nat)
    ensures |BigEndian(n, width)| == width
  {
    if width > 0 { BigEndianLength(n / 256, width - 1); }
  }

  lemma {:induction false} BigEndianInjective(m: nat, n: nat, width: nat)
    requires m < Pow256(width) && n < Pow256(width) && BigEndian(m, width) == BigEndian(n, width)
    ensures m == n
  {
    BigEndianRoundTrip(m, width);
    BigEndianRoundTrip(n, width);
  }

  lemma Widths()
    ensures Pow256(3) == 0x100_0000 && Pow256(4) == U32_LIMIT && Pow256(8) == U64_LIMIT
  {
    assert Pow256(2) == 256 * Pow256(1);
    assert Pow256(3) == 256 * Pow256(2);
    assert Pow256(4) == 256 * Pow256(3);
    assert Pow256(5) == 256 * Pow256(4);
    assert Pow256(6) == 256 * Pow256(5);
    assert Pow256(7) == 256 * Pow256(6);
    assert Pow256(8) == 256 * Pow256(7);
  }

  /** `build_aad`. */
  function BuildAad(headerHash: Bytes, seqNo: nat, nonce: Bytes, manifestHash: Bytes, chunkLen: nat): Bytes {
    headerHash + BigEndian(seqNo, 8) + nonce + manifestHash + BigEndian(chunkLen, 4)
  }

  /** The argument widths `build_aad` is declared with. */
  ghost predicate AadArguments(headerHash: Bytes, seqNo: nat, nonce: Bytes, manifestHash: Bytes, chunkLen: nat) {
    && |headerHash| == 32 && seqNo < U64_LIMIT && |nonce| == NONCE_LEN
    && |manifestHash| == 32 && chunkLen < U32_LIMIT
  }

  lemma AadSlices(headerHash: Bytes, seqNo: nat, nonce: Bytes, manifestHash: Bytes, chunkLen: nat)
    requires AadArguments(headerHash, seqNo, nonce, manifestHash, chunkLen)
    ensures var aad := BuildAad(headerHash, seqNo, nonce, manifestHash, chunkLen);
            && |aad| == 88
            && aad[..32] == headerHash && aad[32..40] == BigEndian(seqNo, 8) && aad[40..52] == nonce
            && aad[52..84] == manifestHash && aad[84..] == BigEndian(chunkLen, 4)
  {
    hide BigEndian;
    BigEndianLength(seqNo, 8);
    BigEndianLength(chunkLen, 4);
  }

  /** The associated data pins down everything that went into it. */
  lemma AadInjective(h: Bytes, s: nat, n: Bytes, m: Bytes, l: nat, h': Bytes, s': nat, n': Bytes, m': Bytes, l': nat)
    requires AadArguments(h, s, n, m, l) && AadArguments(h', s', n', m', l')
    requires BuildAad(h, s, n, m, l) == BuildAad(h', s', n', m', l')
    ensures h == h' && s == s' && n == n' && m == m' && l == l'
  {
    hide BuildAad;
    AadSlices(h, s, n, m, l);
    AadSlices(h', s', n', m', l');
    Widths();
    BigEndianInjective(s, s', 8);
    BigEndianInjective(l, l', 4);
  }

  // ── The stream's file header ───────────────────────────────────────────────

  datatype FileHeader = FileHeader(version: char, aead: char, sig: char, hash: char, kdf: char,
                                   reserved: Bytes, keyId: Bytes, deviceIdHash: Bytes,
                                   noncePrefix: Bytes, chunkSize: nat)

  /** The widths of the struct's arrays and integers. */
  ghost predicate HeaderShape(h: FileHeader) {
    && |h.reserved| == 3 && |h.keyId| == 16 && |h.deviceIdHash| == 32
    && |h.noncePrefix| == 4 && h.chunkSize < U32_LIMIT
  }

  /** `to_bytes`: the fields fill 64 bytes and the two after them stay zero. */
  function HeaderBytes(h: FileHeader): Bytes {
    [h.version, h.aead, h.sig, h.hash, h.kdf] + h.reserved + h.keyId + h.deviceIdHash + h.noncePrefix
    + BigEndian(h.chunkSize, 4) + ['\0', '\0']
  }

  /** The `TryFrom<u8>` conversions of the four algorithm enums. */
  predicate KnownAlgorithms(aead: char, sig: char, hash: char, kdf: char) {
    && 1 <= aead as int <= 3 && 1 <= sig as int <= 7
    && 1 <= hash as int <= 6 && 1 <= kdf as int <= 4
  }

  /** `from_bytes`, on the 66 bytes its argument type demands. */
  function ParseHeader(b: Bytes): Option<FileHeader> {
    if |b| != HEADER_LEN || !KnownAlgorithms(b[1], b[2], b[3], b[4]) then None else
      Some(FileHeader(b[0], b[1], b[2], b[3], b[4], b[5..8], b[8..24], b[24..56], b[56..60],
                      BigEndianValue(b[60..64])))
  }

  lemma HeaderSlices(h: FileHeader)
    requires HeaderShape(h)
    ensures var b := HeaderBytes(h);
            && |b| == HEADER_LEN && b[..5] == [h.version, h.aead, h.sig, h.hash, h.kdf]
            && b[5..8] == h.reserved && b[8..24] == h.keyId && b[24..56] == h.deviceIdHash
            && b[56..60] == h.noncePrefix && b[60..64] == BigEndian(h.chunkSize, 4)
  {
    hide BigEndian;
    BigEndianLength(h.chunkSize, 4);
  }

  /** A header reads back as written, exactly when its algorithm numbers are known ones. */
  lemma HeaderRoundTrip(h: FileHeader)
    requires HeaderShape(h)
    ensures ParseHeader(HeaderBytes(h)) ==
            if KnownAlgorithms(h.aead, h.sig, h.hash, h.kdf) then Some(h) else None
  {
    hide BigEndian;
    HeaderSlices(h);
    var b := HeaderBytes(h);
    assert b[0] == b[..5][0] && b[1] == b[..5][1] && b[2] == b[..5][2] && b[3] == b[..5][3] && b[4] == b[..5][4];
    Widths();
    BigEndianRoundTrip(h.chunkSize, 4);
  }
}
